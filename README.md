# Admin dashboard client: list, form and session logic in Dafny

This project models the three pieces of logic in a small React admin client for a remote product catalog:

- **Product list page** (`src/pages/ProductsList.tsx`). The page keeps the catalog list it fetched. A search box filters that list case-insensitively on the title and on the decimal id. Deleting removes a product from the page's own copy only. The dialog closes, and the header keeps the total the server reported.
- **Add/edit form** (`src/pages/ProductAddEdit.tsx`). A form record whose price and stock are blank or a number. Its pieces are the change rule, the validity test that enables submit, the request a submit sends (create or update), and the form filled from a loaded product, with its thumbnail fallback.
- **Session store** (`src/context/AuthContext.tsx`). The signed-in user, mirrored in the browser's key-value store under `userToken` and `currentUser`. It covers hydration on mount, login and logout.

Modules:

- `Wrappers`: Option and Result.
- `Text`: ASCII `toLowerCase`, `trim`, `includes`, and the decimal form of an integer with its reader.
- `Seqs`: `filter` and the subsequence relation.
- `ProductsList`, `ProductAddEdit` and `Auth`: one module per source file.
- `ProfileCodec`: stands in for `JSON.stringify`/`JSON.parse` of the stored profile.

State that the source updates in place is modelled as classes with `modifies` clauses: the list page's view state, the form page and the session provider. The filter, the validity test, the payload, the thumbnail fallback and the store transitions are pure functions. The methods are specified by those functions, and the lemmas prove their properties.

Where the code and the prose description of the system differ, the model follows the code:

- Hydration requires both stored entries to be non-empty (JavaScript truthiness), not merely present.
- `handleDelete` treats id `0` like a missing id (`!id`). Deleting product 0 therefore does nothing, and the dialog stays open.
- Cancelling the delete dialog closes it but keeps the chosen id in `productToDelete`.

## Model

| member | source | states |
| Text.Lower | src/pages/ProductsList.tsx:61 | ASCII `toLowerCase`: same length, every upper-case letter lowered, every other character kept |
| Text.LowerNoUpper | src/pages/ProductsList.tsx:64 | lower-casing leaves a string without upper-case letters (such as a decimal id) unchanged |
| Text.Trim | src/pages/ProductAddEdit.tsx:73-74 | `trim` never lengthens a string, and a non-empty result starts and ends with a non-whitespace character |
| Text.Contains | src/pages/ProductsList.tsx:63-64 | `includes` only succeeds when the term is no longer than the searched string |
| Text.IntToString | src/pages/ProductsList.tsx:64 | `id.toString()` is non-empty and starts with a minus sign exactly for negative ids |
|---|---|---|
| Text.LowerIdempotent | src/pages/ProductsList.tsx:61 | lower-casing an already lower-cased term changes nothing |
| Text.ContainsIff | src/pages/ProductsList.tsx:63-64 | the left-to-right `includes` search succeeds exactly when the term occurs at some position |
| Text.TrimEmptyIff | src/pages/ProductAddEdit.tsx:73-74 | a string trims to `''` exactly when every character is whitespace |
| Text.IntToStringRoundTrip | src/pages/ProductsList.tsx:64 | the decimal form of an id reads back as the same integer |
| Seqs.Keep | src/pages/ProductsList.tsx:62 | `filter` never lengthens the list; every element kept passes the test, and every element of the input that passes is kept |
| Seqs.KeepIsSubsequence | src/pages/ProductsList.tsx:62 | a filter's result is a subsequence of its input |
| Seqs.KeepMultiplicity | src/pages/ProductsList.tsx:62 | a filter keeps every copy of a passing value and no copy of a failing one |
| Seqs.KeepAll | src/pages/ProductsList.tsx:49 | a filter whose test every element passes returns the list unchanged |
| Seqs.KeepCommute | src/pages/ProductsList.tsx:49-62 | two filters may be applied in either order |
| Seqs.SubsequenceMultiset | src/pages/ProductsList.tsx:62 | a subsequence adds and duplicates nothing: its multiset is contained in the original's |
| ProductsList.Matches | src/pages/ProductsList.tsx:63-64 | the empty term matches every product; a term longer than both the title and the decimal id never matches |
| ProductsList.MatchesIff | src/pages/ProductsList.tsx:63-64 | a product matches exactly when the lower-cased term occurs at some position of its lower-cased title or of its decimal id |
| ProductsList.FilteredProducts | src/pages/ProductsList.tsx:57-66 | the shown list is never longer than the list and holds only listed products |
| ProductsList.FilterEmptyTerm | src/pages/ProductsList.tsx:58-60 | an empty search term returns the product list unchanged |
| ProductsList.FilterMembership | src/pages/ProductsList.tsx:61-65 | a product is shown iff it is in the list and the term is empty, or its lower-cased title or its decimal id contains the lower-cased term |
| ProductsList.FilterSubsequence | src/pages/ProductsList.tsx:62-65 | the shown list is a subsequence of the list (order kept, nothing added or duplicated); a matching product keeps all its occurrences |
| ProductsList.FilterCaseInsensitive | src/pages/ProductsList.tsx:61 | two terms that lower-case to the same string show the same products |
| ProductsList.FilterLowerCaseTerm | src/pages/ProductsList.tsx:61 | a term and its lower-cased form show the same products |
| ProductsList.FilterFindsOwnId | src/pages/ProductsList.tsx:64 | searching for a listed product's decimal id always shows that product |
| ProductsList.SearchExamples | src/pages/ProductsList.tsx:57-66 | with "Shirt" (id 1) and "Shoe" (id 2), "sh" shows both, "1" only the shirt, "" both |
| ProductsList.RemoveId | src/pages/ProductsList.tsx:49 | every remaining product is a listed one without the id; every listed product without the id remains |
| ProductsList.RemoveIdSpec | src/pages/ProductsList.tsx:49 | after removal no product has the id; every other product stays, with all its occurrences, in its original order |
| ProductsList.RemoveAbsentId | src/pages/ProductsList.tsx:49 | removing an id no product carries leaves the list unchanged |
| ProductsList.RemoveThenFilter | src/pages/ProductsList.tsx:46-66 | deleting then searching shows the same products as searching then removing the deleted id |
| ProductsList.VisibleAfterDelete | src/pages/ProductsList.tsx:46-66 | after a delete, the search shows no product with that id, every other matching product, and a subsequence of the list |
| ProductsList.ProductsListView.Visible | src/pages/ProductsList.tsx:57-66 | the cards on screen are a subsequence of the page's list, and all of it while the search is empty |
| ProductsList.ProductsListView.constructor | src/pages/ProductsList.tsx:17-24 | a new page has an empty list, total 0, loading on, no error, no dialog, no chosen product, an empty search |
| ProductsList.ProductsListView.ApplyFetch | src/pages/ProductsList.tsx:28-40 | a fetched answer replaces list and total and clears the error; a failure keeps both and sets the fetch error; loading ends off |
| ProductsList.ProductsListView.SetSearchTerm | src/pages/ProductsList.tsx:83 | typing sets the search term |
| ProductsList.ProductsListView.RequestDelete | src/pages/ProductsList.tsx:147 | a card's delete button remembers its id and opens the dialog |
| ProductsList.ProductsListView.CancelDelete | src/pages/ProductsList.tsx:170 | cancel closes the dialog and changes nothing else |
| ProductsList.ProductsListView.HandleDelete | src/pages/ProductsList.tsx:46-55 | a null id or id 0 changes nothing; otherwise the list loses that id, the dialog closes and the chosen product is cleared; the total never changes, and the list stays a subsequence of the fetched one |
| ProductsList.ProductsListView.ConfirmDelete | src/pages/ProductsList.tsx:167 | confirm deletes the remembered product with the same effect as `handleDelete` |
| ProductsList.DeleteFlow | src/pages/ProductsList.tsx:46-55 | fetch, search, request and confirm a delete: the shown list is the search over the list without that id, the header still shows the fetched total, the dialog is closed |
| ProductAddEdit.IsFormValid | src/pages/ProductAddEdit.tsx:71-80 | a valid form has a numeric price above 0 and a numeric stock of at least 0 |
| ProductAddEdit.FormValidIff | src/pages/ProductAddEdit.tsx:71-80 | the form is valid iff title and description hold a non-whitespace character, price is a number above 0 and stock a number of at least 0 |
| ProductAddEdit.InvalidForms | src/pages/ProductAddEdit.tsx:73-78 | a whitespace-only title or description, a blank price or stock, price at most 0 or stock below 0 each make the form invalid |
| ProductAddEdit.EmptyFormInvalid | src/pages/ProductAddEdit.tsx:19-21 | the initial all-blank form is invalid |
| ProductAddEdit.ValidityExamples | src/pages/ProductAddEdit.tsx:71-80 | price 0 or stock -1 is invalid; price 9.99 with stock 0 is valid |
| ProductAddEdit.Coerce | src/pages/ProductAddEdit.tsx:55 | price and stock (and only they) become numeric; they are blank exactly for empty input and otherwise the number of the text; other fields keep the raw text |
| ProductAddEdit.Changed | src/pages/ProductAddEdit.tsx:51-57 | the targeted field holds the new text, or `''`/the number for price and stock; every other field is unchanged |
| ProductAddEdit.ChangeIdempotent | src/pages/ProductAddEdit.tsx:53-56 | repeating the same change event gives the same form |
| ProductAddEdit.ClearingNumberInvalidates | src/pages/ProductAddEdit.tsx:55 | clearing price or stock makes the form invalid whatever else it holds |
| ProductAddEdit.ThumbnailIrrelevantToValidity | src/pages/ProductAddEdit.tsx:71-80 | editing the thumbnail never changes validity |
| ProductAddEdit.WithUpload | src/pages/ProductAddEdit.tsx:63-66 | a non-empty file-reader result replaces the thumbnail; a null or empty one changes nothing; other fields never change |
| ProductAddEdit.PayloadOf | src/pages/ProductAddEdit.tsx:91-97 | title, description and thumbnail are copied verbatim; price and stock are the form's numbers, or 0 for a blank field (`Number('')`) |
| ProductAddEdit.ValidPayload | src/pages/ProductAddEdit.tsx:91-97 | a valid form's payload copies title, description and thumbnail verbatim and carries the form's price (> 0) and stock (>= 0) as numbers |
| ProductAddEdit.IsEditMode | src/pages/ProductAddEdit.tsx:16 | edit mode needs an `id` parameter that is present and non-empty (`!!id`) |
| ProductAddEdit.SubmitRequest | src/pages/ProductAddEdit.tsx:99-103 | PUT to `/products/{id}` exactly in edit mode (a non-empty id parameter), otherwise POST to `/products/add`; the body is the payload |
| ProductAddEdit.LoadedThumbnail | src/pages/ProductAddEdit.tsx:38 | the thumbnail if non-empty, else the first image if there is a non-empty one, else `''`; the result is empty only when both are missing |
| ProductAddEdit.FormOf | src/pages/ProductAddEdit.tsx:33-39 | a loaded product fills title and description verbatim, price and stock as numbers (never blank), and the fallback thumbnail |
| ProductAddEdit.LoadThenSubmit | src/pages/ProductAddEdit.tsx:91-103 | submitting a loaded product untouched PUTs its own title, description, price, stock and fallback thumbnail |
| ProductAddEdit.LoadedValidity | src/pages/ProductAddEdit.tsx:33-39 | a loaded product's form is valid iff its own values pass validation |
| ProductAddEdit.ProductFormPage.constructor | src/pages/ProductAddEdit.tsx:15-25 | a new page has the blank form, no submit in progress, no error, and waits for the product exactly in edit mode |
| ProductAddEdit.ProductFormPage.ApplyLoaded | src/pages/ProductAddEdit.tsx:27-49 | only in edit mode: a loaded product fills the form; a failure keeps the form and sets the load error; the spinner ends off |
| ProductAddEdit.ProductFormPage.HandleChange | src/pages/ProductAddEdit.tsx:51-57 | the form becomes the changed form |
| ProductAddEdit.ProductFormPage.HandleFileLoaded | src/pages/ProductAddEdit.tsx:59-68 | the form takes the uploaded thumbnail |
| ProductAddEdit.ProductFormPage.HandleSubmit | src/pages/ProductAddEdit.tsx:82-112 | an invalid form or a submit in progress sends nothing and changes nothing; otherwise the create/update request is sent, success navigates to the list, failure sets the operation's error, and loading ends off |
| ProductAddEdit.WhitespaceTitleSendsNothing | src/pages/ProductAddEdit.tsx:73 | a new form whose title is only whitespace sends no request, whatever the other inputs hold |
| ProfileCodec.Encode | src/context/AuthContext.tsx:51 | a stored profile is never the empty string, so hydration's truthiness test passes for it |
| ProfileCodec.DecodeEncodeField | src/context/AuthContext.tsx:51 | one stored field reads back as written, whatever follows it |
| ProfileCodec.DecodeEncode | src/context/AuthContext.tsx:39-51 | parsing a stored profile gives back the profile that was stored |
| ProfileCodec.Decode | src/context/AuthContext.tsx:39 | the empty string never parses as a profile |
| ProfileCodec.EncodeInjective | src/context/AuthContext.tsx:51 | distinct profiles are stored as distinct texts |
| Auth.ProfileOf | src/context/AuthContext.tsx:50 | dropping the token loses nothing else: putting the user's own token back gives the user |
| Auth.Consistent | src/context/AuthContext.tsx:49-63 | a store with both keys, or with neither, is consistent |
| Auth.HasSession | src/context/AuthContext.tsx:38 | a store that holds a session holds both keys |
| Auth.WithToken | src/context/AuthContext.tsx:39 | joining a profile with a token gives a user with that profile and that token |
| Auth.ReadSession | src/context/AuthContext.tsx:35-41 | no session iff either entry is missing or empty; a present session whose profile parses is restored as that profile joined with the stored token; `Malformed` exactly when the profile does not parse |
| Auth.LoginStore | src/context/AuthContext.tsx:49-51 | login writes the token under `userToken` and the token-less profile under `currentUser`, and touches no other key |
| Auth.LogoutStore | src/context/AuthContext.tsx:62-63 | logout removes both keys and touches no other |
| Auth.LoginThenHydrate | src/context/AuthContext.tsx:35-52 | after a login with a non-empty token, hydration restores exactly the logged-in user |
| Auth.EmptyTokenNotRestored | src/context/AuthContext.tsx:38-49 | a login with an empty token is not restored on reload |
| Auth.LogoutThenHydrate | src/context/AuthContext.tsx:35-65 | after logout, hydration finds no session |
| Auth.LogoutIdempotent | src/context/AuthContext.tsx:61-65 | logging out twice leaves the store as logging out once |
| Auth.TransitionsConsistent | src/context/AuthContext.tsx:49-63 | after login or logout the two keys are present together or absent together |
| Auth.AuthProvider.IsAuthenticated | src/context/AuthContext.tsx:32 | authenticated exactly when the user is non-null |
| Auth.AuthProvider.constructor | src/context/AuthContext.tsx:31-32 | the user starts null, so `isAuthenticated` starts false |
| Auth.AuthProvider.Hydrate | src/context/AuthContext.tsx:35-41 | the user is set only when the store holds a parseable session; a profile that does not parse is reported as thrown |
| Auth.AuthProvider.Login | src/context/AuthContext.tsx:44-58 | success writes both keys and sets the user to the returned data; failure rethrows and changes neither store nor user; both-or-neither is preserved |
| Auth.AuthProvider.Logout | src/context/AuthContext.tsx:61-65 | both keys removed, user null, store consistent |
| Auth.ReloadAfterLogin | src/context/AuthContext.tsx:35-52 | a provider mounted over the store left by a login with a non-empty token hydrates to the same user |
| Auth.ReloadAfterLogout | src/context/AuthContext.tsx:35-65 | a provider mounted over the store left by a logout stays signed out |
| Auth.FailedLogin | src/context/AuthContext.tsx:44-58 | a failed login returns the error and leaves the provider signed out and its store unchanged |

## Left out

- Rendering is not modelled: JSX, widgets, spinners, alerts and the dialog's display in every page, and the sidebar in `src/components/AppLayout.tsx`.
- Routing is not modelled: the route table in `src/App.tsx`, the route guard and the login page's redirect. `src/components/ProtectedRoute` is not part of this model.
- The HTTP client and the login call (`src/services/api.ts`) are not modelled, and neither is the bearer-token interceptor; they are network plumbing over a library. The methods take the server's answer as a parameter: a product list and total, a product, a success flag, or a login result.
- `loginUser`'s normalisation of error messages is not modelled; a failed login carries its message as given.
- The reply's shape is taken from the `User` interface.
- `JSON.stringify`/`JSON.parse` are replaced by `ProfileCodec`, a length-prefixed text encoding. It has the one property the store relies on (parse after stringify gives back the profile). The JSON text format itself is not modelled. A stored profile that does not parse stands for a `JSON.parse` that throws.
- Storage writes never fail in the model. In the browser `setItem` can throw (quota exceeded) at `src/context/AuthContext.tsx:51` after the token was written at line 49. That would leave a token without a profile, a state that `Auth.AuthProvider.Login` and `Auth.TransitionsConsistent` do not cover.
- The `console.error` logging of a failed login (`src/context/AuthContext.tsx:55`) is not modelled; it has no effect on state.
- `localStorage` is the `store` map of `Auth.AuthProvider`. Its persistence across reloads is modelled by mounting a new provider over the same map.
- `Number()` parsing is not modelled. `ProductAddEdit.Changed` takes it as a parameter `toNumber`. Price and stock are exact reals or blank: there is no floating point and no `NaN`.
- `toLowerCase` and `trim` cover ASCII only: no Unicode case folding and no Unicode whitespace.
- The file reader's base64 conversion is not modelled; only its result's effect on the thumbnail is (`ProductAddEdit.WithUpload`).
- The order of asynchronous steps, requests still in flight, and updates after unmount are not modelled. Each handler runs to completion, so the `loading` flags are off after every modelled step. The `loading` guard of `handleSubmit` is still part of `ProductAddEdit.ProductFormPage.HandleSubmit`.
- The `catch` branch of `handleDelete` is not modelled: nothing inside its `try` can throw.
