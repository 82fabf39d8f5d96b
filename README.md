# Trust Cards admin console: a verified model

This project models the browser-side logic of the Trust Cards admin console
in Dafny: the `AdminPanel` controller of `admin.js` and the page check of
`auth-guard.js`. It covers these parts:

- **Category filter.** The product grid filters by category. `normalizeCategory`
  lower-cases a category and turns each run of whitespace into one `-`. A
  missing category counts as `""`. The grid shows every product when the filter
  value is absent or empty. Otherwise it shows, in order, the products whose
  normalised category equals the normalised filter value (`category.dfy`,
  `products.dfy`, and `sequences.dfy` for `Array.prototype.filter`).
- **The `AdminPanel` class** (`admin_panel.dfy`). It has the fields `products`,
  `users`, `orders` and `currentSection`, plus the page state the handlers
  touch: the active section marks, the page title and the add-product submit
  button's `disabled` flag. Three ghost logs record what the handlers do:
  - the notifications shown, each with its message, type and icon;
  - the requests sent, each with the state of the submit button when it was
    sent;
  - the other page actions: renders, stats updates, hiding the modals and
    resetting a form.

  Network replies and the answers to `confirm` dialogs are method parameters.
  A reply (`remote.dfy`) is a success with its body, a non-2xx status, or a
  thrown error with its message. Each handler's postcondition states the whole
  new state, with the exact notification messages of the source:
  - loads replace a collection wholesale, or leave it untouched and report one
    error;
  - `addProduct` issues no request when a required field is missing. It keeps
    its submit button disabled while its requests are sent and always releases
    it.
  - a declined delete changes nothing;
  - `deleteUser` removes exactly the users with the given id, with no request.
- **Sections** (`sections.dfy`). There are six sections, one title per section.
  The controller's `currentSection` starts as `dashboard`; the page marks and
  title it starts with are assumed to match (see below). `showSection` activates the named
  section and only that one.
- **Notification icons** (`notifications.dfy`): a fixed icon for `success`,
  `error`, `info` and `warning`, and `info-circle` for any other type.
- **Form data** (`forms.dfy`). `FormData.get` returns the first entry with a
  name. An empty text value is falsy, but a `File` object is truthy even when
  no file was chosen.
- **`cancelOrder`** (`orders.dfy`), as the list of effects it produces.
- **`isProtectedPage`** (`auth_guard.dfy`). The page name is the text after the
  last `/` of the path. An empty name means `index.html`. The name is protected
  when it appears in `PROTECTED_PAGES`, which holds only `admin.html`, by exact
  and case-sensitive match.

The shipped `admin.js` does not parse, so the model follows the evidently
intended code:
- a stray `}` at line 183 closes the class early;
- `showSection` and `getSectionTitle` lack their braces (lines 185 and 197);
- `getSectionTitle` builds its title table but never returns it (197-205);
- an extra `}` follows the class at line 473.

The model's `SectionTitle` returns `titles[section]`. The module comments say
the same.

Two handlers are modelled exactly as the code has them, although they are
less careful than their neighbours:
- `addUser` does no client-side validation, and it neither disables nor
  re-enables a submit button. Only `addProduct` does both.
- `deleteUser` filters the local list without a request, unlike the product
  and order deletions, which reload from the server.

Characters are ASCII for the category filter. `toLowerCase` maps only `A`..`Z`,
and `\s` is space, tab, LF, CR, VT and FF.

## Model

| member | source | states |
|---|---|---|
| `Sequences.Filter` | admin.js:232-234 | the filtered list is no longer than the input and every element in it passes the predicate |
| `Sequences.FilterIsSubsequence` | admin.js:232-234 | the filter keeps the input's order (the result is a subsequence) |
| `Sequences.FilterCounts` | admin.js:232-234 | every occurrence of a passing element is kept and no occurrence of any other |
| `Sequences.FilterMembership` | admin.js:232-234 | an element is in the result iff it is in the input and passes |
| `Sequences.FilterKeepsAll` | admin.js:230-235 | when every element passes, the filter returns its input unchanged |
| `Category.Lower` | admin.js:228 | `toLowerCase` on one ASCII character: upper-case letters move by 32, everything else is unchanged, whitespace stays whitespace |
| `Category.ToLower` | admin.js:228 | the lowered string has the same length, and each character is lowered |
| `Category.LeadingSpaces` | admin.js:228 | the greedy `\s+` match: every character before the count is whitespace and the next one is not |
| `Category.LeadingSpacesAt` | admin.js:228 | the maximal whitespace prefix is unique |
| `Category.ReplaceSpaceRuns` | admin.js:228 | `replace(/\s+/g, "-")` never makes a string longer |
| `Category.ReplacedForm` | admin.js:228 | after the replacement no whitespace is left, and it adds no upper-case letter |
| `Category.SpaceRunIsOneDash` | admin.js:228 | a non-empty all-whitespace string becomes exactly `-` |
| `Category.ReplaceConcat` | admin.js:228 | the replacement works run by run: splitting anywhere except inside a whitespace run commutes with it |
| `Category.RunBecomesDash` | admin.js:228 | a maximal whitespace run between two parts becomes a single `-`, whatever whitespace it holds |
| `Category.NormalizedForm` | admin.js:227-228 | a normalised category is lower-case and holds no whitespace |
| `Category.MissingIsEmpty` | admin.js:228 | a null/undefined category and `""` both normalise to `""` |
| `Category.ToLowerFixes` | admin.js:228 | lower-casing leaves a string without upper-case letters unchanged |
| `Category.ReplaceFixes` | admin.js:228 | the replacement leaves a string without whitespace unchanged |
| `Category.NormalizeIdempotent` | admin.js:227-228 | normalising a normalised category changes nothing |
| `Category.NormalizeIgnoresCase` | admin.js:227-228 | lower-casing the input first gives the same normal form |
| `Category.IsSpace` | admin.js:228 | a `\s` character is an ASCII control or space character, never a letter and never the `-` that replaces whitespace runs |
| `Category.NormalizeCategory` | admin.js:227-228 | the normal form is no longer than the category, and it is `""` exactly when the category is missing or `""` |
| `Category.GiftCardExample` | admin.js:227-228 | `"Gift Card"` and `"gift-card"` both normalise to `"gift-card"` |
| `ProductView.VisibleProducts` | admin.js:224-235 | the grid never shows more products than there are; with an active filter every shown product's normalised category equals the normalised filter value |
| `ProductView.UnfilteredShowsAll` | admin.js:224-230 | with no filter element or an empty filter value, the grid shows exactly `this.products` in order |
| `ProductView.FilteredShowsMatching` | admin.js:230-235 | with a non-empty filter value the grid shows an order-preserving subsequence of the products. It keeps every copy of a product whose normalised category equals the normalised filter value, and no copy of any other product. |
| `ProductView.SameNormalFormSameView` | admin.js:230-235 | two filter values with the same normal form show the same products |
| `ProductView.NormalizedFilterSameView` | admin.js:227-235 | a non-empty filter value has a non-empty normal form, and filtering by that normal form shows the same products as filtering by the value itself |
| `ProductView.RenderIdempotent` | admin.js:220-235 | filtering the shown list again with the same filter changes nothing |
| `ProductView.GiftCardScenario` | admin.js:227-235 | products with categories `"Gift Card"` and `"gift-card"` are both shown under the filter `"Gift Card"` and under `"gift-card"` |
| `AuthGuard.Split` | auth-guard.js:12 | `split('/')` always yields at least one piece |
| `AuthGuard.JoinSplit` | auth-guard.js:12 | joining the pieces with `/` gives back the path |
| `AuthGuard.SinglePieceIffNoSlash` | auth-guard.js:12 | the path is one piece iff it contains no `/` |
| `AuthGuard.SplitAtSlash` | auth-guard.js:12 | splitting `a + "/" + b` gives the pieces of `a` followed by those of `b` |
| `AuthGuard.LastPieceIsTail` | auth-guard.js:12 | the last piece of `split('/')` is a suffix of the path without `/`, preceded by `/` unless it is the whole path |
| `AuthGuard.LastSegment` | auth-guard.js:12 | `pop()` of the split is the longest `/`-free tail of the path: a suffix, holding no `/`, preceded by `/` unless it is the whole path |
| `AuthGuard.NoSlashIsWhole` | auth-guard.js:12 | a path with no `/` is its own page name |
| `AuthGuard.AfterLastSlash` | auth-guard.js:12 | the page name is the text after the last `/` |
| `AuthGuard.OnlyLastSegmentMatters` | auth-guard.js:12 | everything up to the last `/` is ignored |
| `AuthGuard.CurrentPage` | auth-guard.js:12 | the page name is the last segment when that is non-empty, and `index.html` when it is empty; so it is never empty |
| `AuthGuard.IsProtectedPage` | auth-guard.js:6-14 | a path is protected iff its last segment is exactly `admin.html` |
| `AuthGuard.ProtectionIgnoresDirectories` | auth-guard.js:11-14 | `dir/name` and `name` get the same answer |
| `AuthGuard.RootIsIndex` | auth-guard.js:12-13 | `"/"` and `""` mean `index.html` and are not protected |
| `AuthGuard.TopLevelPage` | auth-guard.js:11-14 | for a top-level path `"/" + name` the page name is `name`, and the path is protected iff `name` is `admin.html` |
| `AuthGuard.NestedPage` | auth-guard.js:11-14 | a page `name` inside any directory is protected iff `name` is `admin.html` |
| `AuthGuard.IndexIsPublic` | auth-guard.js:13 | `"/index.html"` is not protected |
| `AuthGuard.AdminIsProtected` | auth-guard.js:13 | `"/admin.html"` is protected |
| `AuthGuard.NestedAdminIsProtected` | auth-guard.js:12-13 | `"/a/b/admin.html"` is protected, like `"/admin.html"` |
| `AuthGuard.CaseMatters` | auth-guard.js:13 | `"/Admin.html"` is not protected (case-sensitive) |
| `AuthGuard.SuffixMatters` | auth-guard.js:13 | `"/admin.html.bak"` is not protected (exact match) |
| `Sections.SectionNamed` | admin.js:190 | `getElementById(name)` finds the section with that id, or none when no section has it |
| `Sections.Title` | admin.js:197-205 | every section has a non-empty title |
| `Sections.IdRoundTrip` | admin.js:190-192 | section ids and sections correspond one to one |
| `Sections.SectionTitle` | admin.js:197-205 | the title table is defined exactly on the six section names, and gives each section's title |
| `Sections.TitlesDistinct` | admin.js:197-205 | no two sections share a title |
| `Notifications.NotificationIcon` | admin.js:462-470 | the icon is always one of the four in the table, and it is `info-circle` exactly for `info` and for types outside the table |
| `Notifications.KnownIcons` | admin.js:463-468 | success, error, info and warning map to their fixed icons |
| `Notifications.KnownIconsDistinct` | admin.js:463-468 | distinct known types have distinct icons |
| `Forms.Get` | admin.js:268 | `get` returns null exactly when no entry has the name, and otherwise the value of an entry with that name |
| `Forms.Append` | admin.js:274 | `append` keeps every entry in place and adds the new text entry at the end |
| `Forms.MissingRequired` | admin.js:268 | a form that passes the check has an entry for each of name, category, price and image |
| `Forms.FirstIndex` | admin.js:268 | `FormData.get` looks at the first entry with the name: no earlier entry has it |
| `Forms.GetFindsFirst` | admin.js:268 | `get` returns the value of the first entry with the name |
| `Forms.MissingRequiredIff` | admin.js:268 | the validation fails iff one of name, category, price, image is absent (`null`) or is the empty text; a form whose four fields are all files passes |
| `Forms.GetAfterAppend` | admin.js:274 | `append` adds an entry after the others: `get` sees it only for a name the form did not have |
| `Remote.Reason` | admin.js:212-216 | after `if (!res.ok) throw new Error(fallback)` the reported message is the fallback for a non-2xx reply, whatever the body says, and the thrown message when the call threw; the same rule serves admin.js:310-315, 327-331, 372-379 and 496-500 |
| `Remote.ReasonFromBody` | admin.js:281-283 | after a non-2xx reply the message is the body's non-empty `error` field, or the fallback when the field is missing or empty (so it is never empty); after a throw it is the thrown message |
| `OrderCancel.CancelOrder` | admin.js:490-502 | a declined cancel does nothing. A confirmed one sends one DELETE, then shows exactly one alert, which is the success alert iff the DELETE succeeded and otherwise `❌ Error deleting order: ` followed by the error message; orders are refetched iff it succeeded, and nothing else follows. |
| `AdminConsole.WithoutUser` | admin.js:392 | no remaining user has the deleted id, and the list does not grow |
| `AdminConsole.WithoutUserKeepsOthers` | admin.js:392 | every user with another id keeps its place and multiplicity; no user with the id remains |
| `AdminConsole.WithoutAbsentUser` | admin.js:392 | deleting an id no user has leaves the list unchanged |
| `AdminConsole.AdminPanel.constructor` | admin.js:5-20 | the panel starts on the dashboard with empty orders. Products and users are the first load's result, or empty if it failed. One GET each is sent, with one error notification per failed load, and each successful load renders its list. |
| `AdminConsole.AdminPanel.ShowNotification` | admin.js:438-447 | appends one notification with its message, type and the type's icon |
| `AdminConsole.AdminPanel.ShowSection` | admin.js:185-195 | for a known name, exactly that section and its link are active, the title is the table's title and `currentSection` is the section. For an unknown name every section mark is cleared and nothing else changes. The navigation always shows the current section. |
| `AdminConsole.AdminPanel.LoadProducts` | admin.js:209-218 | one GET is sent. On success the list is replaced wholesale by the reply and rendered. Otherwise it is unchanged and one `error` notification `Error loading products: <message>` is shown. |
| `AdminConsole.AdminPanel.LoadUsers` | admin.js:324-333 | the same, for the user list |
| `AdminConsole.AdminPanel.ProductAdded` | admin.js:285-289 | after a successful POST: success notification, product reload, stats update, modals hidden, form reset |
| `AdminConsole.AdminPanel.AddProduct` | admin.js:261-295 | with no form, nothing happens. With a required field missing: no request, one error notification, nothing else. Otherwise one POST of the form plus `status: active`, sent with the button disabled. On success the products are reloaded, the modals hidden and the form reset. On failure the list, modals and form are untouched and the error is reported. The button ends released on every path. |
| `AdminConsole.AdminPanel.AddUser` | admin.js:356-381 | one POST of the form's fields with `status: active`. On success: notification, user reload, modals hidden, form reset. On failure: the list is unchanged and the error is reported. |
| `AdminConsole.AdminPanel.DeleteProduct` | admin.js:304-318 | if declined, nothing changes and no request is sent. If confirmed, one DELETE; on success the products are reloaded. The local list changes only through that reload. |
| `AdminConsole.AdminPanel.DeleteUser` | admin.js:390-397 | if declined, nothing changes. If confirmed, the users with the id are removed locally (no request) and one success notification is shown. |

## Left out

- HTTP and `API_BASE_URL` (admin.js:2): each `fetch` is a request in a ghost log, and its reply is a method parameter.
- Concurrency of the async handlers: each handler runs to completion before the next starts. Replies that arrive out of request order, and overlapping loads of one collection, are not modelled.
- `init` (admin.js:13-20): the constructor performs the product and user loads one after the other. `loadDashboardData`, `loadShippingSettings` and `fetchOrders` are left out.
- The markup built by `renderProducts`, `renderUsers` and `showNotification` (admin.js:237-258, 335-354, 439-445). This includes `price.toFixed(2)`, which is floating-point formatting. Only the selection of the shown products is modelled.
- Notification timers and click-to-dismiss (admin.js:449-459): only the notification itself is recorded.
- `confirm` dialogs are boolean inputs. `alert` dialogs appear only as effects of `cancelOrder`.
- Event binding, the sidebar, modal display toggles and the payment-methods modal (admin.js:22-181). This is DOM wiring plus a form fill from a GET.
- Shipping settings load and save (admin.js:402-433, including `parseFloat`). These are I/O with no client-side logic.
- `fetchOrders` and `window.orders` (admin.js:478-488), and the `DOMContentLoaded` hookup (admin.js:504-507). `cancelOrder`'s refetch is recorded as an effect only.
- `updateStats`, `hideAllModals`, `showModal`, `loadDashboardData`, `saveContent`, `saveSettings` and `logout` are called but not defined in these files. Where a modelled handler calls one, the call is recorded as a page action. The model assumes they exist.
- `editProduct` and `editUser` (admin.js:297-302, 383-388): stubs that only show "coming soon".
- Exceptions from missing page elements are not modelled, except `showSection` with an unknown name. Examples: no `users-tbody`, or a product whose `price` is not a number, which makes `toFixed` throw after the list was already replaced.
- A non-JSON error body in `addProduct` makes `res.json()` throw. It is modelled as a thrown error with that parse message.
- The page markup the controller starts on is not part of this model: the constructor assumes the `dashboard` section and its navigation link carry `active` and that `page-title` shows "Dashboard". admin.js:5-11 sets only `currentSection`.
- The `type = 'info'` default of `showNotification` is left out: every call passes a type.
- NotificationIcon: types that name inherited properties of a JavaScript object, such as `"constructor"`, are treated as unknown types. In JavaScript the lookup would return the inherited property.
- Category.Lower: case mapping outside ASCII, and Unicode whitespace that `\s` also matches (U+00A0, U+2028, …), are not modelled.
