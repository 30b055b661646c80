# A verified model of the HealthPulse storefront core

This project is a Dafny model of the client-side logic of the HealthPulse storefront. The storefront is a Next.js shop for home-health products with a blog. The model covers:

- **Cart store** (`Cart`): ordered (product, quantity) lines keyed by slug; `addItem`, `removeItem`, `updateQty`, `clearCart`; the `totalQty` and `subtotal` folds; the load from browser storage and the write back to it.
- **Auth store** (`Auth`): the signed-in user, the loading flag and the stored bearer token; the profile load on mount, `login`, `register`, `logout`, `isAuthenticated`.
- **API client** (`Api`):
  - base-URL normalisation and `buildUrl`;
  - default `Content-Type` and `Authorization` headers on a case-insensitive header list;
  - response parsing and the choice of error message;
  - the body that `api.post` sends.
- **Verification page** (`VerifyPage`): the six-cell digit buffer, focus moves, paste, and the all-cells-filled check before verifying.
- **Forms and routing**:
  - sign-up validation and the move to verification (`SignUpPage`);
  - the sign-in guard and the post-login route (`SignInPage`);
  - checkout shipping, the sign-in redirect, validation, the order payload, and clearing the cart only on success (`CheckoutPage`);
  - the comment form's length guards, counter, button and initials (`CommentForm`).
- **Catalog and display rules**:
  - stock labels, query defaults, price sorting, category chips, the result-count plural and description cleanup (`ProductsPage`);
  - which navigation link is active and the cart badge (`Navbar`);
  - whether the footer shows (`Footer`);
  - the static product and blog catalogs with their slug lookups (`StaticCatalog`, `StaticBlogs`, `SlugLookup`).

The model is built as follows:

- Stateful providers become classes whose fields the methods reassign: `Cart.CartStore`, `Auth.AuthStore`, `Api.Headers` and `VerifyPage.VerifyForm`. Each method's `ensures` gives the complete new state as a function of the old one.
- The list logic behind each cart method is a function (`WithAdded`, `Removed`, `SetLines`). Lemmas prove what the source promises about it: the invariant that slugs are distinct and quantities positive, how the totals change, and idempotence.
- Pure decisions are functions whose contracts state the source's promise, with lemmas linking them to an independent reading.
- Everything remote or environmental is a parameter:
  - the answer of each service call;
  - what browser storage held;
  - the configured base URL;
  - the router's pathname and query parameters.
- A rejected promise is a `Thrown` value: an `ApiError`, another `Error` with its message, or a non-`Error` value.
- JavaScript semantics are written out where they matter:
  - `""` is falsy (`Api.Given`);
  - `\s` and `trim()` use JavaScript's whitespace set;
  - `\d` is ASCII;
  - `split` is on one character;
  - header names are lower-cased, and a repeated name is joined with ", ";
  - `response.ok` means status 200–299.

Prices are integers in minor units (pesewas), so the flat 45-cedi shipping fee is 4500. The source's price types disagree with each other, and the model follows the store's numeric type:

- `src/types/product.ts:6` declares a numeric price, and the cart multiplies it at `src/context/CartContext.tsx:110`.
- The static catalog `src/data/products.ts:15` stores display strings such as "GHS 650.00". `src/components/AddToCartButton.tsx:5` types its product with that catalog type, and `src/app/cart/page.tsx:68` parses the string back.
- `StaticCatalog.CatalogProduct` therefore keeps the price as text, as the catalog does. The cart's `Product` keeps an integer.

## Model

| member | source | states |
|---|---|---|
| Cart.TotalQty | src/context/CartContext.tsx:102-105 | the fold of quantities; for positive quantities it is at least the number of lines |
| Cart.Subtotal | src/context/CartContext.tsx:107-114 | the fold of price × quantity; non-negative when every price and quantity is |
| Cart.Find | src/context/CartContext.tsx:62-64 | finds a line iff some line has the slug, and the found line is that first match |
| Cart.IncreaseLines | src/context/CartContext.tsx:67-71 | same length and products line by line; a cart without the slug is unchanged |
| Cart.SetLines | src/context/CartContext.tsx:91-95 | same length and products line by line; a cart without the slug is unchanged |
| Cart.WithAdded | src/context/CartContext.tsx:61-75 | the result has a line for the product; its length grows by one exactly for a new slug, and then the old lines stay in front |
| Cart.Removed | src/context/CartContext.tsx:79-81 | never longer, and strictly shorter when some line has the slug |
| Cart.TotalsConcat | src/context/CartContext.tsx:102-114 | both totals are additive over concatenation |
| Cart.TotalsSingle | src/context/CartContext.tsx:102-114 | a single line's totals are its quantity and its price × quantity |
| Cart.TotalsReplace | src/context/CartContext.tsx:102-114 | replacing one line changes each total by exactly the difference of the two lines |
| Cart.TotalsDrop | src/context/CartContext.tsx:102-114 | dropping one line lowers each total by that line's contribution |
| Cart.TotalQtyPositiveIffNonEmpty | src/context/CartContext.tsx:102-105 | with positive quantities, `totalQty > 0` iff the cart has a line |
| Cart.SubtotalPositive | src/context/CartContext.tsx:107-114 | with positive prices and quantities, `subtotal > 0` iff the cart has a line |
| Cart.WithAddedEffect | src/context/CartContext.tsx:61-74 | adding to a present slug raises every line with that slug and keeps the length; adding a new slug appends one line `{product, quantity}` |
| Cart.WithAddedExisting | src/context/CartContext.tsx:66-72 | with distinct slugs, adding to the slug at index i changes exactly line i, by +quantity |
| Cart.FindDistinct | src/context/CartContext.tsx:62-64 | with distinct slugs, the lookup of line i's slug finds line i |
| Cart.IncreaseLineTotals | src/context/CartContext.tsx:66-72 | raising line i by q raises `totalQty` by q and `subtotal` by its price × q |
| Cart.AddExistingKeepsInvariant | src/context/CartContext.tsx:66-72 | adding to a present slug keeps slugs distinct and quantities positive, and the totals grow by q and the line's price × q |
| Cart.AddNewKeepsInvariant | src/context/CartContext.tsx:74 | appending a new slug keeps the invariant, and the totals grow by q and product.price × q |
| Cart.AddItemKeepsInvariant | src/context/CartContext.tsx:58-76 | any valid `addItem` keeps the invariant, raises `totalQty` by q and `subtotal` by the line price × q |
| Cart.RemovedMembers | src/context/CartContext.tsx:78-82 | the filtered list holds exactly the old lines with another slug |
| Cart.RemovedAbsent | src/context/CartContext.tsx:78-82 | removing an absent slug leaves the list as it was |
| Cart.RemovedIdempotent | src/context/CartContext.tsx:78-82 | a second removal of the same slug changes nothing |
| Cart.RemovedAt | src/context/CartContext.tsx:78-82 | with distinct slugs, removing line i's slug gives the list without line i, other lines in order |
| Cart.RemovedKeepsInvariant | src/context/CartContext.tsx:78-82 | removal keeps slugs distinct and quantities positive |
| Cart.ConsWellFormed | src/context/CartContext.tsx:78-82 | a positive line whose slug no other line has can head a well-formed cart |
| Cart.RemovedTotals | src/context/CartContext.tsx:78-114 | removing line i's slug lowers the totals by that line's contribution |
| Cart.SetLinesAt | src/context/CartContext.tsx:91-95 | with distinct slugs, setting the quantity of line i's slug changes exactly line i to quantity q |
| Cart.SetLinesAbsent | src/context/CartContext.tsx:91-95 | setting the quantity of an absent slug changes nothing |
| Cart.SetLinesKeepsInvariant | src/context/CartContext.tsx:84-98 | a positive quantity keeps the invariant and moves `totalQty` by the difference |
| Cart.CartStore.constructor | src/context/CartContext.tsx:33 | a new provider has no lines; storage keeps what an earlier session left |
| Cart.CartStore.LoadFromStorage | src/context/CartContext.tsx:36-56 | a saved array replaces the lines without validation; a missing, unparsable or non-array value leaves them; the lines are written back |
| Cart.CartStore.AddItem | src/context/CartContext.tsx:58-76 | q ≤ 0 changes nothing; otherwise the lines become `WithAdded`, a new slug is appended, the invariant is kept and the totals grow; storage mirrors the lines |
| Cart.CartStore.RemoveItem | src/context/CartContext.tsx:78-82 | the lines become the filtered list: members, no-op for an absent slug, invariant kept; storage mirrors the lines |
| Cart.CartStore.UpdateQty | src/context/CartContext.tsx:84-98 | q ≤ 0 is `removeItem`; q > 0 sets exactly that line to q, or changes nothing for an absent slug; invariant kept |
| Cart.CartStore.ClearCart | src/context/CartContext.tsx:100 | no lines, both totals 0, and storage holds the empty list |
| Cart.Reload | src/context/CartContext.tsx:33-47 | a page reload restores a saved list exactly and starts empty otherwise |
| Auth.Register | src/context/AuthContext.tsx:101-108 | `register` yields the response's email or the thrown error, with no store state involved |
| Auth.LoginReply | src/context/AuthContext.tsx:84-96 | `login` resolves to `{requiresVerification: true, email}` for a verification demand and `{}` otherwise; errors propagate |
| Auth.AuthStore.constructor | src/context/AuthContext.tsx:45-46 | no user, loading, and the token storage held |
| Auth.AuthStore.IsAuthenticated | src/context/AuthContext.tsx:117 | true iff a user is held |
| Auth.AuthStore.LoadUser | src/context/AuthContext.tsx:49-69 | no token: user unchanged and loading ends; profile success sets the user; failure removes the token; loading always ends |
| Auth.AuthStore.Login | src/context/AuthContext.tsx:71-99 | a verification demand, a failure or a missing token change neither token nor user; a token is stored and the user taken from the response |
| Auth.AuthStore.Logout | src/context/AuthContext.tsx:112-115 | token and user are cleared and nobody is authenticated |
| Auth.AuthStore.SetUser | src/context/AuthContext.tsx:30 | the user is set and nothing else changes |
| Auth.AuthStore.StoreToken | src/app/verify/page.tsx:75 | the stored token is replaced and nothing else changes |
| Api.ApiBaseUrl | src/lib/api.ts:3-5 | the configured or default base loses one trailing "/" and is otherwise unchanged |
| Api.DefaultBase | src/lib/api.ts:1-5 | an unset or empty configuration gives `http://localhost:5000` |
| Api.ConfiguredBase | src/lib/api.ts:3-4 | never empty; a truthy configured value is used as it is |
| Api.BuildUrl | src/lib/api.ts:18-19 | base + path when the path is rooted, base + "/" + path otherwise; the part after the base starts with "/" |
| Api.BuildUrlKeepsPath | src/lib/api.ts:18-19 | the path is recovered from the URL; rooting a relative path gives the same URL |
| Api.Appended | src/lib/api.ts:37 | `append` adds the lower-cased name to the names, keeps every other entry, and joins a repeated name's values with ", " |
| Api.Filled | src/lib/api.ts:37 | the header list is empty exactly when no pair was supplied |
| Api.FilledNames | src/lib/api.ts:37 | the header list contains exactly the lower-cased supplied names |
| Api.Headers.constructor | src/lib/api.ts:37 | `new Headers(init)` appends the supplied pairs in order |
| Api.Headers.Set | src/lib/api.ts:43-48 | `set` replaces the value under the lower-cased name |
| Api.WithDefaultHeaders | src/lib/api.ts:38-49 | supplied headers are never overwritten; only content-type and authorization can be added; content-type iff a non-form body and none supplied, authorization iff a token and none supplied, with the stated values |
| Api.HeaderNames | src/lib/api.ts:42-47 | `Content-Type` and `Authorization` are looked up as `content-type` and `authorization` |
| Api.MessageOf | src/app/signin/page.tsx:40-41 | an `Error` (an `ApiError` included) gives its message; any other thrown value gives the fallback |
| Api.ResponseData | src/lib/api.ts:52-59 | JSON for a JSON content type, text unless the status is 204, null otherwise; a JSON parse error propagates |
| Api.BodyMessage | src/lib/api.ts:62-67 | a message is read exactly when the body is an object with a string `message`, and it is that string |
| Api.ErrorMessage | src/lib/api.ts:61-68 | a string `data.message`, else "Request failed with status " followed by the status's decimal digits |
| Api.Interpret | src/lib/api.ts:61-72 | an OK status yields the data; any other throws an `ApiError` carrying message, status and data |
| Api.ApiErrorOnlyForFailedStatus | src/lib/api.ts:61-70 | an `ApiError` arises iff the body was read and the status is not OK, and it carries that status and data |
| Api.ApiFetch | src/lib/api.ts:33-73 | the request is the built URL, the verb, the supplied headers plus the defaults, and the body; the result is the interpreted response or the rejection |
| Api.PostBody | src/lib/api.ts:82 | FormData passes through, a truthy value is JSON-stringified, a falsy or missing one sends no body |
| Api.GetInit | src/lib/api.ts:76-77 | `api.get` sets the method to GET and keeps headers and body |
| Api.PostInit | src/lib/api.ts:78-83 | `api.post` sets the method to POST, keeps the headers, and takes the body from `PostBody` |
| Api.PostContentType | src/lib/api.ts:78-83 | `api.post` with a truthy value gets the JSON content type unless one was supplied; forms and falsy bodies never get one added |
| JsStrings.TrimStart | src/components/CommentSection.tsx:68 | the result is the suffix left after a block of leading whitespace, and it does not start with whitespace |
| JsStrings.TrimEnd | src/components/CommentSection.tsx:68 | the result is the prefix left before a block of trailing whitespace, and it does not end with whitespace |
| JsStrings.LeadingSpaces | src/components/CommentSection.tsx:68 | the count of leading whitespace characters: all of them are whitespace and the next character, if any, is not |
| JsStrings.TrailingSpaces | src/components/CommentSection.tsx:68 | the count of trailing whitespace characters: all of them are whitespace and the character before them, if any, is not |
| JsStrings.LeadingSpacesAt | src/components/CommentSection.tsx:68 | a whitespace run of length k followed by a non-space or by the end is exactly the leading run |
| JsStrings.Trim | src/components/CommentSection.tsx:68 | `trim()` is the infix of its input that starts after the leading whitespace run, with only whitespace cut away on either side, and it neither starts nor ends with whitespace |
| JsStrings.TrimInfix | src/components/CommentSection.tsx:68 | whitespace after the kept infix of the suffix is whitespace after the same infix of the whole string |
| JsStrings.TrimIdempotent | src/components/CommentSection.tsx:68 | trimming twice equals trimming once |
| JsStrings.Split | src/components/CommentSection.tsx:25 | `split(" ")` gives at least one part and no part contains the separator |
| JsStrings.JoinSplit | src/components/CommentSection.tsx:25 | joining the parts with the separator gives the string back |
| JsStrings.Decimal | src/lib/api.ts:68 | a status renders as a non-empty digit string without a leading zero |
| JsStrings.DecimalRoundTrip | src/lib/api.ts:68 | reading the rendered digits back gives the status |
| VerifyPage.LastChar | src/app/verify/page.tsx:32 | `slice(-1)` is the last character, or empty for an empty value |
| VerifyPage.DigitsOf | src/app/verify/page.tsx:49 | `replace(/\D/g, "")` yields only digits, contains every digit of the input, keeps a single digit and drops a single non-digit |
| VerifyPage.DigitsOfConcat | src/app/verify/page.tsx:49 | the digits of a concatenation are the digits of each part in order; with the one-character cases, the result is the in-order digit subsequence |
| VerifyPage.DigitsOfDigits | src/app/verify/page.tsx:49 | a string of digits is kept whole |
| VerifyPage.Pasted | src/app/verify/page.tsx:49 | the pasted code is at most six digits |
| VerifyPage.PastedCell | src/app/verify/page.tsx:52 | cell i takes pasted digit i, or is empty beyond the pasted length |
| VerifyPage.FocusAfterChange | src/app/verify/page.tsx:29-38 | focus advances to index+1 iff a digit value was typed before the last cell |
| VerifyPage.FocusAfterKeyDown | src/app/verify/page.tsx:41-45 | focus moves back iff Backspace in an empty cell other than the first |
| VerifyPage.JoinedLength | src/app/verify/page.tsx:60 | cells of length ≤ 1 join to at most one character each, with equality iff every cell is filled |
| VerifyPage.Joined | src/app/verify/page.tsx:60 | joining digit cells gives a digit string |
| VerifyPage.FullCodeIffAllFilled | src/app/verify/page.tsx:60-64 | the length-6 check passes iff all six cells are filled |
| VerifyPage.CopyCells | src/app/verify/page.tsx:31 | `[...code]` is a fresh array with the same cells |
| VerifyPage.VerifyForm.constructor | src/app/verify/page.tsx:13-19 | six empty cells; the email parameter or ""; no error, not loading |
| VerifyPage.VerifyForm.RedirectsToSignUp | src/app/verify/page.tsx:22-26 | the page sends the visitor to sign-up iff the email is empty |
| VerifyPage.VerifyForm.HandleChange | src/app/verify/page.tsx:28-39 | a non-digit value changes nothing; otherwise only cell `index` changes, to the last character; six cells of ≤ 1 digit remain; the resend flags are unchanged |
| VerifyPage.VerifyForm.HandlePaste | src/app/verify/page.tsx:47-57 | every cell takes the pasted digit or ""; focus goes to min(pasted length, 5); the resend flags are unchanged |
| VerifyPage.VerifyForm.HandleVerify | src/app/verify/page.tsx:59-85 | an unfilled cell gives the incomplete-code error without a request and leaves the loading flag; success stores the token and user; failure shows the message and leaves the auth store; a request ends with loading off; the code and the resend flags are unchanged |
| VerifyPage.VerifyForm.HandleResend | src/app/verify/page.tsx:87-101 | success flag iff the request succeeded; the error is the failure's message or ""; ends with resending off and leaves the code and the verify loading flag |
| SignUpPage.FirstFailure | src/app/signup/page.tsx:40-58 | each message appears exactly when every earlier check passes and its own fails; none iff all four pass |
| SignUpPage.RegisterRequest | src/app/signup/page.tsx:40-69 | `register` is called exactly when validation passes, with the form's name, email, password, phone, date of birth and location |
| SignUpPage.SignUpSubmit | src/app/signup/page.tsx:36-78 | validation errors stop the flow; success routes to verify with the returned email; a thrown value shows its message or "Registration failed." |
| SignUpPage.RejectedFormIgnoresService | src/app/signup/page.tsx:40-58 | a rejected form's outcome does not depend on the service |
| SignUpPage.NavigatesOnlyToVerify | src/app/signup/page.tsx:70 | the page navigates iff validation and registration succeed, and then only to verify |
| SignInPage.AfterLogin | src/app/signin/page.tsx:28-42 | a verification demand routes to verify with `result.email` or the typed email; otherwise the redirect parameter or "/"; a thrown value shows its message or "Login failed." |
| SignInPage.SubmitSignIn | src/app/signin/page.tsx:17-46 | an empty email or password shows the error and leaves the auth store; otherwise the outcome follows `login`'s result; a token login stores the token and the response's user, every other path leaves token and user as they were, and loading is never touched |
| SignInPage.VerificationWins | src/app/signin/page.tsx:29-32 | a verification demand always leads to the verify page, never to the redirect |
| CheckoutPage.Shipping | src/app/checkout/page.tsx:28 | 4500 pesewas when the subtotal is positive, 0 otherwise |
| CheckoutPage.ShippingIffNonEmpty | src/app/checkout/page.tsx:28 | for positive prices and quantities, shipping is due iff the cart has lines |
| CheckoutPage.RedirectTarget | src/app/checkout/page.tsx:33-37 | the page redirects to `/signin?redirect=/checkout` iff not loading and not authenticated |
| CheckoutPage.Prefill | src/app/checkout/page.tsx:40-46 | a signed-in user's name, email and phone (or "") replace those fields; address and notes stay |
| CheckoutPage.Refusal | src/app/checkout/page.tsx:52-60 | missing fields are reported before an empty cart; no refusal iff all fields and a line are present |
| CheckoutPage.OrderLines | src/app/checkout/page.tsx:71-77 | one order line per cart line, each carrying that line's product id, name, price and quantity, with lineTotal = price × quantity |
| CheckoutPage.LinesTotal | src/app/checkout/page.tsx:71-77 | the order's line totals sum to a non-negative amount when every line total is |
| CheckoutPage.Payload | src/app/checkout/page.tsx:64-79 | the posted order has one line per cart line, its line totals add up to the subtotal, the customer is the form's full name, email, phone and address, and it carries the form's delivery notes |
| CheckoutPage.OrderLineSnapshot | src/app/checkout/page.tsx:71-77 | one order line per cart line in order, with productId, name and price snapshots, qty and lineTotal = price × qty |
| CheckoutPage.OrderLinesTotal | src/app/checkout/page.tsx:71-77 | the order's line totals add up to the cart's subtotal |
| CheckoutPage.SubmitOrder | src/app/checkout/page.tsx:48-91 | a refusal posts nothing and leaves the cart; success posts the payload and clears the cart; failure leaves the cart and shows the message or "Order submission failed." |
| CommentForm.ValidateComment | src/components/CommentSection.tsx:68-77 | the trimmed text passes iff its length is in [5, 500]; otherwise the minimum or maximum message |
| CommentForm.SubmitError | src/components/CommentSection.tsx:85-90 | an `ApiError`'s message, otherwise the generic message |
| CommentForm.Submit | src/components/CommentSection.tsx:63-94 | only trimmed text of valid length is posted; the content is cleared only after success; the banners follow the outcome |
| CommentForm.ClearedOnlyOnSuccess | src/components/CommentSection.tsx:78-81 | for a non-empty textarea, it ends empty iff the text passed and was accepted |
| CommentForm.CharsLeft | src/components/CommentSection.tsx:96 | the remaining count plus the raw length is 500 |
| CommentForm.IsOverLimit | src/components/CommentSection.tsx:97 | text within the raw limit is within it once trimmed too |
| CommentForm.CounterNegativeIffOver | src/components/CommentSection.tsx:96-97 | the counter is negative iff the text is over the limit |
| CommentForm.Tone | src/components/CommentSection.tsx:166-172 | red over the limit, amber within 50 characters, grey otherwise |
| CommentForm.SubmitDisabled | src/components/CommentSection.tsx:178 | the button is enabled iff nothing is being submitted, the comment validates and the text is not over the limit; an enabled button means a trimmed length of at least 5 and a raw length of at most 500 |
| CommentForm.EnabledButtonPassesGuards | src/components/CommentSection.tsx:178 | whenever the button is enabled, the submit guards let the trimmed text through |
| CommentForm.GuardsLooserThanButton | src/components/CommentSection.tsx:178 | more than 500 spaces before "hello" pass the submit guards of lines 68-77 while the button stays disabled |
| CommentForm.TrimPadded | src/components/CommentSection.tsx:68 | leading whitespace before a word with non-space ends trims away entirely |
| CommentForm.TrimStartSkips | src/components/CommentSection.tsx:68 | trimming skips exactly a leading block of spaces |
| CommentForm.Initials | src/components/CommentSection.tsx:23-29 | one or two characters; "?" when no part has a first letter |
| CommentForm.Heads | src/components/CommentSection.tsx:24-26 | at most one character per part, and exactly one per part when no part is empty |
| CommentForm.HeadsAreWordStarts | src/components/CommentSection.tsx:24-27 | the first letters of the split parts are the word-start characters of the name |
| CommentForm.NoWordStartsIffBlank | src/components/CommentSection.tsx:24-29 | a name has no word start iff it is all spaces |
| CommentForm.InitialsOfName | src/components/CommentSection.tsx:23-29 | the initials are the upper-cased first two word starts, and "?" for a blank name |
| CommentForm.TwoWordStarts | src/components/CommentSection.tsx:23-29 | two space-free words joined by one space have exactly their first letters as word starts |
| CommentForm.TwoWordInitials | src/components/CommentSection.tsx:23-29 | a two-word name gives the upper-cased first letters of both words |
| ProductsPage.GetStockLabel | src/app/products/page.tsx:14-18 | ≤ 0 Out of Stock, 1..5 Low Stock, > 5 In Stock, for every quantity |
| ProductsPage.SelectedCategory | src/app/products/page.tsx:26 | the category parameter, or "all" when it is missing or empty |
| ProductsPage.SortBy | src/app/products/page.tsx:27 | the sort parameter, or "newest" when it is missing or empty |
| ProductsPage.SortInPlace | src/app/products/page.tsx:45-46 | the array ends ordered by price and is a permutation of what it held |
| ProductsPage.Insert | src/app/products/page.tsx:45-46 | one insertion step extends the ordered prefix by one element, permuting the array |
| ProductsPage.SinkStart | src/app/products/page.tsx:45-46 | an ordered prefix plus the next element is the start of an insertion |
| ProductsPage.SinkStep | src/app/products/page.tsx:45-46 | swapping the inserted element past a neighbour it must precede keeps the insertion invariant one place further left |
| ProductsPage.SinkDone | src/app/products/page.tsx:45-46 | once the inserted element may follow its left neighbour, the prefix is ordered |
| ProductsPage.SortForDisplay | src/app/products/page.tsx:44-47 | a permutation of the input; ascending for "price-low", descending for "price-high", the input order otherwise |
| ProductsPage.BothOrdersMeansOnePrice | src/app/products/page.tsx:45-46 | a list ordered both ways holds one price |
| ProductsPage.CategoryChips | src/app/products/page.tsx:49-52 | "All Products"/"all" first, then one chip per category in order |
| ProductsPage.ChipHref | src/app/products/page.tsx:81-85 | "/products" for the "all" chip, "/products?category=slug" otherwise |
| ProductsPage.DefaultHighlightsAll | src/app/products/page.tsx:77 | without a category parameter the "All Products" chip is the active one |
| ProductsPage.ResultSuffix | src/app/products/page.tsx:127-128 | "s" unless the count is exactly 1 |
| ProductsPage.IndexOf | src/app/products/page.tsx:214 | the first position of the closing `>` |
| ProductsPage.StripTags | src/app/products/page.tsx:214 | never longer, introduces no character, leaves no `<` followed later by `>`, and returns a tag-free input unchanged |
| ProductsPage.StripTagsFirstTag | src/app/products/page.tsx:214 | the text before the first `<` is kept and the tag from that `<` to the first `>` after it is removed; with the tag-free case this fixes the result for every input |
| ProductsPage.StripTagsKeepsPrefix | src/app/products/page.tsx:214 | a prefix without `<` passes through unchanged |
| ProductsPage.StripTagsAtTag | src/app/products/page.tsx:214 | a leading tag is removed up to and including its first `>` |
| ProductsPage.StripTagsKeepsHead | src/app/products/page.tsx:214 | a first character other than `<` is kept |
| ProductsPage.StripTagsPrefixStep | src/app/products/page.tsx:214 | a prefix that passes through unchanged still does with one more non-`<` character in front |
| ProductsPage.IndexOfFirst | src/app/products/page.tsx:214 | a position holding the character with none before it is the one `IndexOf` finds |
| ProductsPage.ReplaceNbsp | src/app/products/page.tsx:215 | never longer, and a text without `&` is unchanged |
| ProductsPage.ReplaceNbspFirst | src/app/products/page.tsx:215 | the text before the first `&` is kept and an `&nbsp;` there, in any letter case (`StartsNbsp`), becomes one space |
| ProductsPage.ReplaceNbspStray | src/app/products/page.tsx:215 | the text before the first `&` is kept, and that `&` is kept when it does not begin `&nbsp;` in any case; with `ReplaceNbspFirst` and the `&`-free case this fixes the result for every input |
| ProductsPage.ReplaceNbspKeepsPrefix | src/app/products/page.tsx:215 | a prefix without `&` passes through unchanged |
| ProductsPage.ReplaceNbspPrefixStep | src/app/products/page.tsx:215 | a prefix that passes through unchanged still does with one more non-`&` character in front |
| ProductsPage.ReplaceNbspKeepsHead | src/app/products/page.tsx:215 | a first character other than `&` is kept |
| ProductsPage.ReplaceNbspAtStray | src/app/products/page.tsx:215 | a leading `&` that does not begin `&nbsp;` is kept |
| ProductsPage.CollapseSpaces | src/app/products/page.tsx:216 | empty iff the input is; no neighbouring whitespace, every whitespace is a plain space, and a whitespace-free input is unchanged |
| ProductsPage.CollapseFirstRun | src/app/products/page.tsx:216 | the non-space text before the first whitespace run is kept and the run becomes one space; with the whitespace-free case this fixes the result for every input |
| ProductsPage.CollapseKeepsPrefix | src/app/products/page.tsx:216 | a whitespace-free prefix passes through unchanged |
| ProductsPage.CollapsePrefixStep | src/app/products/page.tsx:216 | a prefix that passes through unchanged still does with one more non-space in front |
| ProductsPage.CollapseAtRun | src/app/products/page.tsx:216 | a leading whitespace run before a non-space or the end becomes one space |
| ProductsPage.CollapseKeepsHead | src/app/products/page.tsx:216 | a first character that is not whitespace is kept |
| ProductsPage.TrimStartRun | src/app/products/page.tsx:216 | `trimStart` removes exactly a leading whitespace run that is followed by a non-space |
| ProductsPage.InfixKeeps | src/app/products/page.tsx:216-217 | an infix keeps single plain spaces |
| ProductsPage.TrimKeeps | src/app/products/page.tsx:216-217 | trimming keeps single plain spaces |
| ProductsPage.FallbackShape | src/app/products/page.tsx:218 | the fallback text is trimmed with single plain spaces |
| ProductsPage.CleanDescription | src/app/products/page.tsx:212-218 | a missing or empty description gives "Health product"; otherwise the cleaned text, with no leading, trailing or repeated whitespace |
| Navbar.CurrentPath | src/components/Navbar.tsx:19 | a missing or empty pathname is "/" |
| Navbar.IsActive | src/components/Navbar.tsx:7-16 | an item is active only on paths that start with its href |
| Navbar.HomeOnlyAtRoot | src/components/Navbar.tsx:8 | Home is active iff the path is exactly "/" |
| Navbar.SectionsByPrefix | src/components/Navbar.tsx:9-15 | Blog, Shop and Categories are active iff the path starts with their prefix |
| Navbar.AtMostOneActive | src/components/Navbar.tsx:7-16 | no path activates two items, and each item's own href activates it |
| Navbar.MissingPathIsHome | src/components/Navbar.tsx:8-19 | without a pathname Home is active |
| Navbar.BadgeIffCartNonEmpty | src/components/Navbar.tsx:72-76 | with positive quantities, the badge shows iff the cart has lines |
| Footer.ShowsFooter | src/components/Footer.tsx:7-11 | the footer shows iff the defaulted path starts with none of "/signin", "/signup", "/verify" |
| Footer.IsAuthPath | src/components/Footer.tsx:8-10 | an auth page is a path starting with "/signin", "/signup" or "/verify" |
| Footer.AuthPathExtends | src/components/Footer.tsx:8-10 | any extension of an auth path is an auth path |
| SlugLookup.FindBySlug | src/data/products.ts:212-213 | none iff no element has the slug; otherwise the first element with it |
| SlugLookup.FindOwnKey | src/data/products.ts:212-213 | with distinct slugs, an element's own slug finds that element |
| StaticCatalog.GetProductBySlug | src/data/products.ts:212-213 | none iff no catalog entry has the slug; otherwise an entry with that slug |
| StaticCatalog.SlugsDistinct | src/data/products.ts:30-186 | the seven catalog slugs are pairwise distinct |
| StaticCatalog.EverySlugFindsItsProduct | src/data/products.ts:27-213 | every listed slug finds its own entry |
| StaticCatalog.UnknownSlug | src/data/products.ts:212-213 | the empty slug finds nothing |
| StaticBlogs.GetBlogBySlug | src/data/blogs.ts:124-125 | none iff no post has the slug; otherwise a post with that slug |
| StaticBlogs.SlugsDistinct | src/data/blogs.ts:38-101 | the three blog slugs are pairwise distinct |
| StaticBlogs.EverySlugFindsItsPost | src/data/blogs.ts:36-125 | every listed slug finds its own post |

## Left out

- Network, browser storage and routing are inputs and outputs only: `fetch`, `localStorage` reads and writes, `JSON.parse`/`JSON.stringify` of whole documents, and `router.push`:
  - a service's answer is a parameter;
  - a navigation is a returned route;
  - the stored cart is an abstract `StoredCart`.
  - A failed storage write is not modelled: the source ignores it.
- Floating point is not modelled:
  - the checkout's 1.64% tax and `totalAmount`;
  - the cart page's totals and string-price parsing;
  - `toFixed` and `toLocaleString`.
  - The order payload therefore has no `totalAmount`.
- `CommentForm.Initials`: upper-cases ASCII letters only, because `toUpperCase` is full Unicode, and takes characters where JavaScript takes UTF-16 code units.
- String lengths count Dafny characters, not UTF-16 code units. This applies to the comment limits, the password length and the verification cells.
- `ProductsPage.SortForDisplay`: does not state stability; JavaScript's sort is stable, and insertion by adjacent swaps is too, but the contract only promises order and permutation.
- `Api.Headers`: header-name and header-value validation is not modelled; neither is the exception `new Headers` raises for invalid input.
- `Api.ApiFetch`: the `...init` spread is reduced to the method, headers and body fields.
- The comment list's loading effect, its cancellation flag and `formatDate` are left out: event-loop behaviour and `Intl` formatting.
- `src/services/*.ts`, `src/middleware.ts`, `src/components/ShareButtons.tsx` and the page markup are not part of this model. The services are one-line wrappers over `apiFetch`. The middleware is a debug log. The share buttons call into the browser.
- `StaticCatalog.CatalogProduct` and `StaticBlogs.BlogPost` keep only the listing fields. Images, long descriptions, ratings, highlights, specifications, sections and galleries are display data.
- `SignUpPage.RegisterRequest`: passes phone, date of birth and location as present strings, as the form always does; `encodeURIComponent` of the verify route is not modelled.
- `Navbar`: the active link's class names and `aria-current` follow from the active flag and are not modelled.
