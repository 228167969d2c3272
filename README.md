# toagro-client, modelled in Dafny

A verified model of the deterministic logic inside the toagro-client web
client, a React/Redux front end for an agricultural marketplace. The model
covers the Redux store slices for listings, categories and UI state; the
prefixed browser-storage wrapper and the preference, recent-search and token
stores built on it; the Ukrainian formatters and the input validators; the
HTTP error classification and the two request/response interceptors; the
`useForm`, `useApi` and `useSocket` hooks; and the list and view
computations of the pagination control, the admin listings, categories and
payments screens, the payments page and payment form, the image uploader,
the category tree, the notifications list, the user's listings page, the
listings page's URL filters, the admin layout and the three route guards.

Each modelled source file is one module. Three kinds of module are shared
helpers: no one source file matches them. `Paging` is the client-side
paging (`Math.ceil` pages, each page a `slice`) that UsersList and
NotificationsList both do. `CategoryTypes`, `ListingTypes` and `PaymentTypes`
hold the server records that several screens read. `JsCore` holds the
JavaScript behaviour they all share: `Array.prototype.filter`, `slice` with clamped and
negative bounds, `parseInt`, the printing of integers, `startsWith`,
`includes`, `toLowerCase` and the digits-only `replace(/\D/g, '')`.

The model takes two forms:

- **Pure code** becomes datatypes and functions. Their contracts and the
  lemmas beside them state what the code promises: round trips,
  idempotence, partitions, bounds, and both directions of each "exactly
  when".
- **Code that changes state in place** becomes a class. This covers the
  reducers over an immer draft, the storage wrapper over its backing map,
  the hooks' setters and the components' local state. Each class method
  is tied to a pure function of the old state.
  - The store slices each have a `Reduce` function. It takes the old state
    and an action and gives the new state, and each store method's
    `ensures` is that function.
  - The loops of the source stay loops, each proved against its
    specification function: `Storage.clear`, `getAllKeys`,
    `getPageNumbers`, `findIndex` and the URL-parameter `forEach`.

What the browser, the network or a callback decides enters as a
parameter:

- the answer of an awaited call;
- whether the storage accepts a write;
- the JSON serializer and parser;
- the current time;
- whether a callback throws: the payment form's `onSuccess`, and the
  position of the first socket subscriber that throws.

## Model

| member | source | states |
|---|---|---|
| ListingsSlice.Reduce | src/store/slices/listingsSlice.ts:85-181 | across all actions only a pending case starts loading and every settled request stops it; an error appears only through a rejection and disappears only on a pending case or clearError |
| ListingsSlice.FirstIndexOf | src/store/slices/listingsSlice.ts:142 | the index found is the first listing with the id, and -1 exactly when no listing has it |
| ListingsSlice.PendingKeepsData | src/store/slices/listingsSlice.ts:96-99 | every pending case sets the loading flag, clears the error and leaves all data untouched |
| ListingsSlice.RejectedKeepsData | src/store/slices/listingsSlice.ts:105-108 | every rejected case stops loading, keeps all data and sets the error to the thrown message, or to that thunk's fallback when the message is missing or empty |
| ListingsSlice.FailedRequestKeepsData | src/store/slices/listingsSlice.ts:96-108 | a pending followed by a rejection leaves the data as it was before the request, so stale data stays visible |
| ListingsSlice.FetchesReplaceTheirOwnLists | src/store/slices/listingsSlice.ts:100-104 | fetching listings replaces items and meta wholesale; fetching the user's listings replaces only userListings and leaves items and meta alone |
| ListingsSlice.CreatePrepends | src/store/slices/listingsSlice.ts:127-130 | a created listing is put at the front, and the list grows by exactly one |
| ListingsSlice.UpdateReplacesFirstMatch | src/store/slices/listingsSlice.ts:140-145 | an update keeps the length, puts the payload at the position of the first item with its id and changes no other position, and changes nothing when no item has the id; the other lists and the metadata stay |
| ListingsSlice.UpdateReplacesCurrentIff | src/store/slices/listingsSlice.ts:146-148 | the viewed listing becomes the payload when it has the payload's id, and otherwise, or when there is none, stays as it was |
| ListingsSlice.WithoutIdProperties | src/store/slices/listingsSlice.ts:161-162 | removing by id keeps exactly the other listings, in order, and removing twice is removing once |
| ListingsSlice.DeleteIdempotent | src/store/slices/listingsSlice.ts:159-163 | after a delete no listing with that id remains in either list, the viewed listing and meta are kept, and a repeated delete changes nothing |
| ListingsSlice.ClearsResetOneField | src/store/slices/listingsSlice.ts:86-91 | each clear reducer resets its own field and nothing else |
| ListingsSlice.FindIndex | src/store/slices/listingsSlice.ts:142 | the search loop returns the first index with the id, or -1 when there is none |
| ListingsSlice.ListingsStore.constructor | src/store/slices/listingsSlice.ts:25-32 | the store starts empty, not loading and without error |
| ListingsSlice.ListingsStore.ClearCurrentListing | src/store/slices/listingsSlice.ts:86-88 | the in-place reducer yields the pure reducer's state |
| ListingsSlice.ListingsStore.ClearError | src/store/slices/listingsSlice.ts:89-91 | the in-place reducer yields the pure reducer's state |
| ListingsSlice.ListingsStore.Pending | src/store/slices/listingsSlice.ts:96-99 | the in-place pending case yields the pure reducer's state |
| ListingsSlice.ListingsStore.Rejected | src/store/slices/listingsSlice.ts:105-108 | the in-place rejected case yields the pure reducer's state |
| ListingsSlice.ListingsStore.FetchListingsFulfilled | src/store/slices/listingsSlice.ts:100-104 | the in-place case yields the pure reducer's state |
| ListingsSlice.ListingsStore.FetchListingFulfilled | src/store/slices/listingsSlice.ts:114-117 | the in-place case yields the pure reducer's state |
| ListingsSlice.ListingsStore.CreateListingFulfilled | src/store/slices/listingsSlice.ts:127-130 | the in-place unshift yields the pure reducer's state |
| ListingsSlice.ListingsStore.UpdateListingFulfilled | src/store/slices/listingsSlice.ts:140-149 | the in-place findIndex-and-assign yields the pure reducer's state |
| ListingsSlice.ListingsStore.DeleteListingFulfilled | src/store/slices/listingsSlice.ts:159-163 | the in-place filters yield the pure reducer's state |
| ListingsSlice.ListingsStore.FetchUserListingsFulfilled | src/store/slices/listingsSlice.ts:173-176 | the in-place case yields the pure reducer's state |
| CategoriesSlice.Reduce | src/store/slices/categoriesSlice.ts:56-118 | across all actions only a pending case starts loading and every settled request stops it; an error appears only through a rejection and disappears only on a pending case or clearError |
| CategoriesSlice.InitialState | src/store/slices/categoriesSlice.ts:13-19 | no categories, no tree, no current category, not loading, no error |
| CategoriesSlice.PendingKeepsData | src/store/slices/categoriesSlice.ts:67-70 | every pending case sets the loading flag, clears the error and keeps all data |
| CategoriesSlice.RejectedKeepsData | src/store/slices/categoriesSlice.ts:75-78 | every rejected case stops loading, keeps all data and records the message, or that thunk's fallback when it is missing or empty |
| CategoriesSlice.FetchesReplaceOneList | src/store/slices/categoriesSlice.ts:71-87 | the list fetch replaces only items, the tree fetch replaces only tree |
| CategoriesSlice.FetchOneOverwritesCurrent | src/store/slices/categoriesSlice.ts:97-113 | fetching by id and by slug both set the current category and nothing else, identically |
| CategoriesSlice.ClearsResetOneField | src/store/slices/categoriesSlice.ts:57-62 | each clear reducer resets its own field and nothing else |
| CategoriesSlice.CategoriesStore.constructor | src/store/slices/categoriesSlice.ts:13-19 | the store starts in the initial state |
| CategoriesSlice.CategoriesStore.ClearCurrentCategory | src/store/slices/categoriesSlice.ts:57-59 | the in-place reducer yields the pure reducer's state |
| CategoriesSlice.CategoriesStore.ClearError | src/store/slices/categoriesSlice.ts:60-62 | the in-place reducer yields the pure reducer's state |
| CategoriesSlice.CategoriesStore.Pending | src/store/slices/categoriesSlice.ts:67-70 | the in-place pending case yields the pure reducer's state |
| CategoriesSlice.CategoriesStore.Rejected | src/store/slices/categoriesSlice.ts:75-78 | the in-place rejected case yields the pure reducer's state |
| CategoriesSlice.CategoriesStore.FetchCategoriesFulfilled | src/store/slices/categoriesSlice.ts:71-74 | the in-place case yields the pure reducer's state |
| CategoriesSlice.CategoriesStore.FetchCategoryTreeFulfilled | src/store/slices/categoriesSlice.ts:84-87 | the in-place case yields the pure reducer's state |
| CategoriesSlice.CategoriesStore.FetchCategoryFulfilled | src/store/slices/categoriesSlice.ts:97-100 | the in-place case yields the pure reducer's state |
| CategoriesSlice.CategoriesStore.FetchCategoryBySlugFulfilled | src/store/slices/categoriesSlice.ts:110-113 | the in-place case yields the pure reducer's state |
| UiSlice.Reduce | src/store/slices/uiSlice.ts:22-44 | the theme changes only on the theme actions, the sidebar flag only on the sidebar actions and the notifications only on add and remove; adding keeps the existing notifications in front and grows the list by one, and no action grows it by more |
| UiSlice.InitialState | src/store/slices/uiSlice.ts:13-17 | light theme, closed sidebar, no notifications |
| UiSlice.Toggled | src/store/slices/uiSlice.ts:24 | toggling always gives the other theme |
| UiSlice.ToggleThemeTwice | src/store/slices/uiSlice.ts:23-25 | toggling the theme changes only the theme, and toggling twice restores the state |
| UiSlice.ToggleSidebarTwice | src/store/slices/uiSlice.ts:29-31 | toggling the sidebar flips only the flag, and toggling twice restores the state |
| UiSlice.SettersStorePayload | src/store/slices/uiSlice.ts:26-34 | each setter stores its payload and nothing else, and setting twice is setting once |
| UiSlice.AddAppends | src/store/slices/uiSlice.ts:35-38 | a notification is appended after all existing ones, with the payload's kind and message and the clock reading as its id |
| UiSlice.DistinctTimesDistinctIds | src/store/slices/uiSlice.ts:36 | different clock readings give different ids |
| UiSlice.RemoveDropsAllWithId | src/store/slices/uiSlice.ts:39-43 | removing keeps exactly the notifications with other ids, in order; it is idempotent and changes nothing when no notification has the id |
| UiSlice.UiStore.constructor | src/store/slices/uiSlice.ts:13-17 | the store starts in the initial state |
| UiSlice.UiStore.ToggleTheme | src/store/slices/uiSlice.ts:23-25 | the in-place reducer yields the pure reducer's state |
| UiSlice.UiStore.SetTheme | src/store/slices/uiSlice.ts:26-28 | the in-place reducer yields the pure reducer's state |
| UiSlice.UiStore.ToggleSidebar | src/store/slices/uiSlice.ts:29-31 | the in-place reducer yields the pure reducer's state |
| UiSlice.UiStore.SetSidebarOpen | src/store/slices/uiSlice.ts:32-34 | the in-place reducer yields the pure reducer's state |
| UiSlice.UiStore.AddNotification | src/store/slices/uiSlice.ts:35-38 | the in-place push yields the pure reducer's state |
| UiSlice.UiStore.RemoveNotification | src/store/slices/uiSlice.ts:39-43 | the in-place filter yields the pure reducer's state |
| Storage.PrefixedKey | src/utils/storage.ts:21-23 | with a prefix the key is the prefix, an underscore and the key; without one it is the key itself |
| Storage.PrefixedKeyInjective | src/utils/storage.ts:21-23 | two keys under one prefix never share a storage key |
| Storage.Empty | src/utils/storage.ts:68 | an emptied store holds no entries |
| Storage.KeyIndex | src/utils/storage.ts:62 | the position of a key in the store's key order, the first one, or -1 when absent |
| Storage.KeyIndexDistinct | src/utils/storage.ts:62 | in a store with distinct keys a key's position is its own index |
| Storage.Put | src/utils/storage.ts:39 | writing an entry maps that key to the value, leaves the others and keeps the key order of the untouched keys |
| Storage.Remove | src/utils/storage.ts:50 | removing drops exactly that key from the entries and from the key order; a missing key changes nothing |
| Storage.DropOneFacts | src/utils/storage.ts:50 | dropping one position from distinct keys keeps the others and keeps them distinct |
| Storage.WithoutPrefixed | src/utils/storage.ts:59-66 | the prefix-scoped clear keeps exactly the entries whose key does not start with the prefix, with their values and order |
| Storage.ReadItem | src/utils/storage.ts:26-34 | an absent or empty stored string reads as null; otherwise it reads as what the deserializer yields, and a throwing deserializer reads as null |
| Storage.WriteItem | src/utils/storage.ts:37-45 | a write succeeds exactly when serializing succeeds and the storage accepts the entry; on failure nothing changes, on success the prefixed key holds the serialized text |
| Storage.SetThenGet | src/utils/storage.ts:26-45 | with a serializer and deserializer that round-trip, a successful write is read back as the value, and other keys read as before |
| Storage.RemoveThenAbsent | src/utils/storage.ts:48-54 | after removal the key reads as null and other keys read as before |
| Storage.StoredNullIsAbsent | src/utils/storage.ts:97-99 | storing null writes an entry that still reads as null, so hasItem says it is absent |
| Storage.ListedKeys | src/utils/storage.ts:102-115 | the key listing has at most one name per stored key, and without a prefix lists exactly the non-empty keys |
| Storage.WrittenKeyIsListed | src/utils/storage.ts:105-109 | every key written under the prefix is listed under its own name |
| Storage.ListedKeysIff | src/utils/storage.ts:102-115 | a name is listed exactly when some non-empty backing key (starting with the prefix, when there is one) gives it once the first `prefix_` inside the key is removed, so no other name is ever listed |
| Storage.ForeignKeyIsListed | src/utils/storage.ts:107-108 | a key that starts with the prefix but holds `prefix_` nowhere is listed unchanged, so the listing includes other applications' keys, such as `toagroX` |
| Storage.AddSearchProperties | src/utils/storage.ts:149-152 | the new search comes first, no copy of it follows, the older ones keep their order, and at most ten are kept |
| Storage.AddSearchKeepsOrder | src/utils/storage.ts:151 | the kept older searches are a subsequence of the stored ones |
| Storage.StoredSearches | src/utils/storage.ts:148-151 | a falsy stored value counts as no searches, an array is used as stored, and any other value makes the filter call throw |
| Storage.IndexFields | src/utils/storage.ts:142 | spreading a list gives each element under its decimal index |
| Storage.CharStrings | src/utils/storage.ts:142 | spreading a string gives its characters one by one |
| Storage.MergePreferences | src/utils/storage.ts:140-143 | the updated keys take the new values, every other stored preference is kept, and a missing record merges into the updates alone |
| Storage.BrowserStorage.constructor | src/utils/storage.ts:9 | the backing store starts empty |
| Storage.BrowserStorage.SetItem | src/utils/storage.ts:39 | the backing store takes the entry exactly when it accepts it |
| Storage.BrowserStorage.RemoveItem | src/utils/storage.ts:50 | the backing store drops the key |
| Storage.BrowserStorage.Clear | src/utils/storage.ts:68 | the whole backing store is emptied |
| Storage.ClearStep | src/utils/storage.ts:61-66 | one step of the backward loop keeps the not-yet-visited keys in place and drops the visited key only when it carries the prefix |
| Storage.ClearDone | src/utils/storage.ts:61-66 | when the loop ends the store is the prefix-scoped clear of the store it started with |
| Storage.PrefixedStorage.constructor | src/utils/storage.ts:14-19 | the wrapper keeps its backing store, prefix and codec |
| Storage.PrefixedStorage.SetItem | src/utils/storage.ts:37-45 | the write is the pure write, and a successful write reads back as the value |
| Storage.PrefixedStorage.RemoveItem | src/utils/storage.ts:48-54 | the prefixed key is removed and hasItem then says no |
| Storage.PrefixedStorage.Clear | src/utils/storage.ts:57-73 | with a prefix the backward loop leaves the prefix-scoped clear; without one the store is emptied |
| Storage.PrefixedStorage.GetItems | src/utils/storage.ts:76-81 | the result has exactly the requested keys, each with what getItem reads |
| Storage.PrefixedStorage.SetItems | src/utils/storage.ts:84-94 | writing the entries in order has the effect of the pure writes one after another, and always reports success |
| Storage.PrefixedStorage.GetAllKeys | src/utils/storage.ts:102-115 | the listing loop returns the pure key listing |
| Storage.GetToken | src/utils/storage.ts:130 | the token is the stored auth_token |
| Storage.SetToken | src/utils/storage.ts:131 | the store becomes the one prefixed write of the token produces: on success only the token key changes and reads back as the token, on a refused write nothing changes |
| Storage.RemoveToken | src/utils/storage.ts:132 | the store loses exactly the prefixed token key, every other key keeps its value, and afterwards there is no token |
| Storage.HasToken | src/utils/storage.ts:133 | true exactly when the stored token reads as non-null |
| Storage.UpdatePreferences | src/utils/storage.ts:140-143 | the store becomes the one prefixed write of the merge of the stored preferences and the updates: on success only the preferences key changes and reads back as that merge, on a refused write nothing changes |
| Storage.AddRecentSearch | src/utils/storage.ts:149-153 | a stored value that is truthy and not a list throws and changes nothing; otherwise the store becomes the one prefixed write of the new recent-searches list, so only that key changes and on success reads back as that list |
| Storage.ClearRecentSearches | src/utils/storage.ts:154 | the store loses exactly the prefixed recent-searches key, every other key keeps its value |
| Formatters.UkrainianPlural | src/utils/formatters.ts:68-79 | the singular, few or many form is returned as the count's plural class says |
| Formatters.PluralOneIff | src/utils/formatters.ts:72 | the singular form is chosen exactly for counts ending in 1 but not in 11 |
| Formatters.PluralFewIff | src/utils/formatters.ts:75 | the few form is chosen exactly for counts ending in 2 to 4 outside the teens |
| Formatters.PluralDependsOnLastTwoDigits | src/utils/formatters.ts:69-70 | the form depends only on the last two digits |
| Formatters.PluralNegativeIsMany | src/utils/formatters.ts:68-79 | JavaScript's sign-keeping `%` sends every negative count to the "many" form |
| Formatters.RelativeJustNow | src/utils/formatters.ts:27-31 | under a minute, including dates in the future, reads as just now |
| Formatters.RelativeMinutes | src/utils/formatters.ts:33-36 | from one minute to under an hour, the whole minutes (1 to 59) with their plural |
| Formatters.RelativeHours | src/utils/formatters.ts:38-41 | from one hour to under a day, the whole hours (1 to 23) with their plural |
| Formatters.RelativeDays | src/utils/formatters.ts:43-46 | from one day to under thirty, the whole days (1 to 29) with their plural |
| Formatters.RelativeOld | src/utils/formatters.ts:48 | thirty days or more falls back to the formatted date |
| Formatters.PhoneLayoutShape | src/utils/formatters.ts:61 | the template puts a plus, the country code, the parenthesised area code and two dashes at fixed places |
| Formatters.PhoneLayoutDigits | src/utils/formatters.ts:61 | the template keeps exactly the twelve digits, in order |
| Formatters.FormatPhoneKeepsDigits | src/utils/formatters.ts:55-65 | a number whose digits are twelve starting with 38 is laid out as +38 (0XX) XXX-XX-XX with the same digits; any other input comes back unchanged |
| Formatters.FormatPhoneIdempotent | src/utils/formatters.ts:55-65 | formatting a formatted number changes nothing |
| Formatters.DigitsOfStep | src/utils/formatters.ts:57 | appending separators without digits and then digits adds just those digits |
| Validators.ValidateEmailSound | src/utils/validators.ts:4-7 | an accepted address is one or more characters other than whitespace and @, an @, and a domain that holds a dot with such characters on both sides |
| Validators.ValidateEmailComplete | src/utils/validators.ts:4-7 | every address of that shape is accepted |
| Validators.ValidateEmailIff | src/utils/validators.ts:5 | the check accepts exactly the addresses the pattern describes |
| Validators.StripSeparators | src/utils/validators.ts:12 | stripping keeps exactly the characters that are not whitespace, dashes or parentheses |
| Validators.ValidatePhoneIff | src/utils/validators.ts:10-14 | a number is accepted exactly when, once stripped, it is 0 or +380 followed by nine digits |
| Validators.StripIdempotent | src/utils/validators.ts:12-13 | stripping twice is stripping once, and stripping first never changes the verdict |
| Validators.ValidatePasswordIff | src/utils/validators.ts:17-21 | a password is accepted exactly when it has at least eight characters, all ASCII letters or digits, with a lower-case letter, an upper-case letter and a digit among them |
| Validators.PriceInterval | src/utils/validators.ts:24-26 | the accepted prices are the interval above zero up to one million: one million is accepted and is the largest, zero is refused, half of an accepted price is accepted, and anything between two accepted prices is accepted |
| Validators.StringLengthBmpIff | src/utils/validators.ts:29-31 | for text inside the Basic Multilingual Plane the length test accepts exactly the strings whose character count lies in the range |
| Validators.Utf16LengthAppendAstral | src/utils/validators.ts:29-31 | a character outside the Basic Multilingual Plane counts as two code units in the checked length |
| Validators.Utf16LengthBmp | src/utils/validators.ts:30 | for text without characters outside the basic plane, the length checked is the number of characters |
| Validators.ImageFileIff | src/utils/validators.ts:34-39 | a file is accepted exactly when its type is JPEG, PNG or WebP and its size is at most 5 MiB |
| Api.HandleApiError | src/utils/api.ts:32-110 | a logout happens exactly for a 401 response; reading the message of a missing body throws exactly for a response outside 401, 403, 404, 429 and 500; the status code is carried exactly when there was a response |
| Api.FixedStatusRecords | src/utils/api.ts:41-88 | 401, 403, 404, 429 and 500 map to their fixed message and code whatever the body says |
| Api.ValidationUsesServerMessage | src/utils/api.ts:66-72 | 422 uses the server's message when it is non-empty, else the fixed validation message |
| Api.OtherStatusesUseTheBody | src/utils/api.ts:90-95 | any other status takes message and code from the body with their fallbacks, so SERVER_ERROR appears for it only when the body says so |
| Api.NoResponseRecords | src/utils/api.ts:97-109 | no response reads as a network error and a setup failure as an unexpected error, neither with a status code |
| Api.HelperConfig | src/utils/api.ts:113-128 | the helper's method and url replace the caller's, data is set only by the body-carrying methods, every other caller key is kept |
| Api.HelperOverridesCaller | src/utils/api.ts:114-127 | a caller's own method or url never survives, and an omitted body overwrites the caller's data with undefined |
| Api.WithBearer | src/utils/api.ts:135-137 | a non-empty token sets Authorization to Bearer and the token, touching no other header; no token leaves the headers as they were |
| Api.InterceptRequest | src/utils/api.ts:133-139 | the handler throws exactly when there is a token but no headers object; without a token the config passes unchanged |
| Api.InterceptorSetsBearerIff | src/utils/api.ts:133-139 | Authorization is present afterwards exactly when the token is non-empty, and running the handler again changes nothing |
| Api.RequestConfig.constructor | src/utils/api.ts:133 | a config starts with its headers and without the retry mark |
| Api.RequestConfig.Intercept | src/utils/api.ts:133-139 | the handler applied in place gives the pure handler's outcome and headers |
| ApiClient.ClientHeaders | src/api/apiClient.ts:14-23 | Authorization is set to Bearer and the token only when there is both a non-empty token and a headers object; otherwise the headers pass unchanged |
| ApiClient.ClientAgreesWithSetupInterceptor | src/api/apiClient.ts:18-20 | with headers present the client's interceptor and the global one produce the same headers; without headers the client's passes where the global one throws |
| ApiClient.OnError | src/api/apiClient.ts:34-47 | a 401 on a request not yet marked logs out once, sends the browser to /login and marks the request; anything else changes neither; an error without a response throws a TypeError instead of passing the error on |
| ApiClient.Settle | src/api/apiClient.ts:30-47 | a success passes through untouched, and every failure is rejected |
| ApiClient.LogoutAtMostOncePerRequest | src/api/apiClient.ts:38-44 | however often one request fails, it causes at most one logout, and none once it is marked |
| ApiClient.FirstUnauthorizedLogsOut | src/api/apiClient.ts:38-44 | failures without a 401 change nothing, and the first 401 logs out and redirects |
| ApiClient.ClientSession.constructor | src/api/apiClient.ts:5-10 | a client starts with no logouts at its location |
| ApiClient.ClientSession.OnRequest | src/api/apiClient.ts:14-23 | the interceptor applied in place gives the pure headers and keeps the retry mark |
| ApiClient.ClientSession.OnResponseError | src/api/apiClient.ts:34-47 | the interceptor applied in place gives the pure session, mark and rejection, and keeps the headers |
| UseSocket.WithSubscriber | src/hooks/useSocket.ts:98-103 | subscribing adds the callback to that event's set, creating it when needed, and leaves every other event's set alone |
| UseSocket.WithoutSubscriber | src/hooks/useSocket.ts:106-116 | unsubscribing removes the callback from that event's set, drops the set when it empties, and leaves every other event alone |
| UseSocket.DistinctAppend | src/hooks/useSocket.ts:101 | adding a callback not yet in a set keeps its members distinct |
| UseSocket.SubscribeIdempotent | src/hooks/useSocket.ts:100-102 | a set stays duplicate-free, so subscribing the same callback twice is subscribing once |
| UseSocket.UnsubscribeTwiceHarmless | src/hooks/useSocket.ts:107-116 | a second unsubscribe changes nothing |
| UseSocket.SubscribeThenUnsubscribe | src/hooks/useSocket.ts:98-117 | unsubscribing a new subscription restores the registry exactly, including dropping a set it created |
| UseSocket.Receivers | src/hooks/useSocket.ts:46-57 | the callbacks called are a prefix of the event's subscribers: all of them when none throws, and up to and including the first that throws otherwise |
| UseSocket.DeliveryIff | src/hooks/useSocket.ts:48-52 | when no callback throws, a callback is called exactly when it is subscribed to the frame's event, and at most once per frame; `null` and unparsable text reach nobody; a value without an `event` member reaches the subscribers of `"undefined"` |
| UseSocket.ThrowStopsDelivery | src/hooks/useSocket.ts:52-56 | a throwing callback ends the `forEach`: the subscribers up to and including it are called and none after it |
| UseSocket.SocketUrl | src/hooks/useSocket.ts:36 | the URL is the base and the namespace, followed by the token query exactly when the token is non-empty |
| UseSocket.SocketHook.constructor | src/hooks/useSocket.ts:20-31 | a hook starts without subscribers, socket or connection |
| UseSocket.SocketHook.Subscribe | src/hooks/useSocket.ts:98-103 | the registry becomes the pure result of subscribing, and nothing else changes |
| UseSocket.SocketHook.Unsubscribe | src/hooks/useSocket.ts:106-117 | the registry becomes the pure result of unsubscribing, and nothing else changes |
| UseSocket.SocketHook.Receive | src/hooks/useSocket.ts:46-57 | the fan-out loop calls exactly the receivers, in order, each with the frame's data, and stops after a callback that throws |
| UseSocket.SocketHook.Connect | src/hooks/useSocket.ts:33-80 | nothing happens when signed out or already open, or when the socket cannot be created; otherwise a new connecting socket on the built URL |
| UseSocket.SocketHook.Opened | src/hooks/useSocket.ts:41-44 | opening marks the hook connected |
| UseSocket.SocketHook.Closed | src/hooks/useSocket.ts:59-70 | closing marks it disconnected, leaves the held socket in the closed state, and schedules a reconnect exactly when reconnecting is enabled and the user is signed in |
| UseSocket.SocketHook.Disconnect | src/hooks/useSocket.ts:82-88 | with a socket, it is dropped and the hook disconnected; without one nothing changes |
| UseSocket.SocketHook.SendMessage | src/hooks/useSocket.ts:90-96 | a message is sent exactly when the socket is open, and is then appended to what was sent |
| UseApi.InitialState | src/hooks/useApi.ts:18-22 | no data, not loading, no error |
| UseApi.Started | src/hooks/useApi.ts:25 | starting a call sets loading, clears the error and keeps the previous data |
| UseApi.ErrorMessage | src/hooks/useApi.ts:36-42 | the server's non-empty message wins, then the error's own non-empty message, then the default text |
| UseApi.ExecuteSettles | src/hooks/useApi.ts:27-49 | both outcomes stop loading; a success carries its data and no error, a failure no data and a non-empty message, and nothing of the previous state survives |
| UseApi.ApiHook.constructor | src/hooks/useApi.ts:18-22 | the hook starts in the initial state |
| UseApi.ApiHook.Begin | src/hooks/useApi.ts:25 | the state becomes the pure started state |
| UseApi.ApiHook.Complete | src/hooks/useApi.ts:28-48 | the state becomes the pure settled state for the outcome |
| UseForm.InitialForm | src/hooks/useForm.ts:28-31 | the initial values, no errors, nothing touched, not submitting |
| UseForm.Change | src/hooks/useForm.ts:38-54 | the field takes the input's value, or its checked flag for a checkbox; a non-empty error on it is set to undefined but its key stays; nothing else changes |
| UseForm.Blur | src/hooks/useForm.ts:56-73 | the field is marked touched; a non-empty validator message for it is recorded, otherwise the errors stay |
| UseForm.Submit | src/hooks/useForm.ts:75-98 | every field is touched, the errors become the validator's, and onSubmit is called exactly when they are empty, after which the form is not submitting |
| UseForm.Reset | src/hooks/useForm.ts:100-105 | the form returns to its initial state |
| UseForm.ChangeKeepsValidity | src/hooks/useForm.ts:48-54 | editing never changes whether the form is valid, so an error cleared by typing still makes the form invalid |
| UseForm.BlurNeverClears | src/hooks/useForm.ts:63-72 | a blur never removes an error, so it never makes an invalid form valid, and it marks the field touched |
| UseForm.SubsetCardinality | src/hooks/useForm.ts:107 | a subset of keys is never larger |
| UseForm.SubmitValidIffCalled | src/hooks/useForm.ts:85-97 | after a submit the form is valid exactly when onSubmit was called |
| UseForm.NoValidatorAlwaysSubmits | src/hooks/useForm.ts:33-36 | without a validator every submit calls onSubmit and leaves no errors |
| UseForm.SubmitIdempotent | src/hooks/useForm.ts:75-98 | submitting twice without edits gives the same form and decision |
| UseForm.FormHook.constructor | src/hooks/useForm.ts:28-31 | the hook starts in the initial form, with nothing submitted |
| UseForm.FormHook.HandleChange | src/hooks/useForm.ts:38-54 | the in-place handler yields the pure change |
| UseForm.FormHook.HandleBlur | src/hooks/useForm.ts:56-73 | the in-place handler yields the pure blur |
| UseForm.FormHook.HandleSubmit | src/hooks/useForm.ts:75-98 | the in-place handler yields the pure submit, and records the values passed to onSubmit when it is called |
| UseForm.FormHook.ResetForm | src/hooks/useForm.ts:100-105 | the in-place handler yields the pure reset |
| Pagination.Range | src/components/common/Pagination.tsx:35-37 | the pages from a to b in order, none when a exceeds b |
| Pagination.RangeSnoc | src/components/common/Pagination.tsx:35-37 | one more loop round appends the next page |
| Pagination.PushWindow | src/components/common/Pagination.tsx:35-37 | the loop appends exactly the window's pages |
| Pagination.GetPageNumbers | src/components/common/Pagination.tsx:20-45 | the method builds exactly the entries of the pure page list |
| Pagination.WindowBounds | src/components/common/Pagination.tsx:22-28 | with at least one slot the window lies within 1 and the last page, holds at most maxVisible pages, and is non-empty whenever it is preceded or followed by hidden pages |
| Pagination.SmallTotalShowsAll | src/components/common/Pagination.tsx:20-45 | when all pages fit, all are shown in order without an ellipsis |
| Pagination.NoPagesNoItems | src/components/common/Pagination.tsx:20-45 | with no pages the list is empty |
| Pagination.CurrentPageShown | src/components/common/Pagination.tsx:20-45 | a current page within range is always among the numbers shown |
| Pagination.IncreasingConcat | src/components/common/Pagination.tsx:30-42 | joining increasing parts in order stays increasing |
| Pagination.WithinConcat | src/components/common/Pagination.tsx:30-42 | joining parts within range stays within range |
| Pagination.PageNumbersIncreasing | src/components/common/Pagination.tsx:20-45 | the numbers shown strictly increase and lie between 1 and the last page |
| Pagination.PageNumbersAt | src/components/common/Pagination.tsx:30-42 | each entry is from the head, the window or the tail according to its position |
| Pagination.FirstAndLastPages | src/components/common/Pagination.tsx:30-42 | with at least one page the list starts with page 1 and ends with the last page |
| Pagination.EllipsesMarkGaps | src/components/common/Pagination.tsx:30-42 | numbers side by side are consecutive pages, and each ellipsis stands between two numbers and hides at least one page |
| Pagination.NextEnabledWithoutPages | src/components/common/Pagination.tsx:62 | as written, with no pages the first page's Next button is enabled and requests page 2, which does not exist |
| Pagination.ButtonsStayInRange | src/components/common/Pagination.tsx:55-62 | with Next disabled from the last page on, an enabled button never leads outside the pages; within range this agrees with the written condition |
| Paging.TotalPagesBounds | src/components/admin/UsersList.tsx:386 | the page count is the least number of pages that holds every item, and zero exactly for an empty list |
| Paging.MoreThanOnePageIff | src/components/admin/UsersList.tsx:386 | there is more than one page exactly when there are more items than fit on one |
| Paging.PageOf | src/components/admin/UsersList.tsx:387-393 | a page never holds more than the page size |
| Paging.PageAsSlice | src/components/admin/UsersList.tsx:388-391 | from page 1 on, a page is the run of items between its two clamped bounds |
| Paging.FirstPagesArePrefix | src/components/admin/UsersList.tsx:388-391 | the first k pages, one after the other, are the first k times page-size items |
| Paging.PagesCoverTheList | src/components/admin/UsersList.tsx:386-393 | the pages up to the page count, in order, are exactly the list: nothing is lost or repeated |
| Paging.PageAfterLastEmpty | src/components/admin/UsersList.tsx:386-393 | a page after the last one is empty |
| Paging.StartBeyond | src/components/admin/UsersList.tsx:389 | a later page starts no earlier |
| AdminListings.FilteredListings | src/components/admin/UsersList.tsx:368-384 | the filtered list keeps, in order, exactly the listings that match the search, the status and the category |
| AdminListings.IncludesEmpty | src/components/admin/UsersList.tsx:370-371 | an empty search term is found in every text |
| AdminListings.NoFiltersKeepAll | src/components/admin/UsersList.tsx:368-384 | with no search term and no filters every listing is kept |
| AdminListings.UnknownStatusKeepsNone | src/components/admin/UsersList.tsx:373-376 | a status filter other than the three known values keeps nothing |
| AdminListings.PendingMatchesTwoStatuses | src/components/admin/UsersList.tsx:373-376 | a pending listing matches the pending filter and also the filter for its active flag, but not the other |
| AdminListings.FiltersIgnoreCase | src/components/admin/UsersList.tsx:370-379 | the search and category comparisons ignore case, so lower-casing the filters changes no verdict |
| AdminListings.FilteringIsIdempotent | src/components/admin/UsersList.tsx:368-384 | filtering the filtered list changes nothing |
| AdminListings.PaginatedListings | src/components/admin/UsersList.tsx:387-393 | the visible page has at most a page of listings, each of them a matching listing |
| AdminListings.JsSliceWithin | src/components/admin/UsersList.tsx:388-391 | a slice holds only elements of what it slices |
| AdminListings.FirstPageIsPrefix | src/components/admin/UsersList.tsx:387-393 | the first page is the first page-size matching listings, or all of them when fewer |
| AdminListings.PagerShownIff | src/components/admin/UsersList.tsx:632 | the pager is shown exactly when more listings match than fit on a page |
| AdminListings.RowActions | src/components/admin/UsersList.tsx:574-607 | a pending listing offers approve and reject; otherwise an active one offers deactivate alone and an inactive one approve alone |
| AdminListings.EveryRowOffersOneTransition | src/components/admin/UsersList.tsx:574-607 | each row offers exactly one of approve and deactivate |
| AdminListings.ListingsTable.constructor | src/components/admin/UsersList.tsx:299-308 | the table starts empty, unfiltered, on page 1, with the given page size or 10 |
| AdminListings.ListingsTable.Loaded | src/components/admin/UsersList.tsx:359 | loading replaces the listings and keeps filters and page |
| AdminListings.ListingsTable.SetSearchTerm | src/components/admin/UsersList.tsx:460-463 | a new search term returns to page 1, which then shows the first page of matching listings |
| AdminListings.ListingsTable.SetStatusFilter | src/components/admin/UsersList.tsx:472-475 | a new status filter returns to page 1, which then shows the first page of matching listings |
| AdminListings.ListingsTable.SetCategoryFilter | src/components/admin/UsersList.tsx:484-487 | a new category filter returns to page 1, which then shows the first page of matching listings |
| AdminListings.ListingsTable.SetPage | src/components/admin/UsersList.tsx:636 | a page change sets only the page |
| AdminCategories.MarkSeparators | src/components/admin/AdminCategories.tsx:133 | every character outside a-z, 0-9 and а-я becomes a dash, the rest stay, and the length is kept |
| AdminCategories.GenerateSlug | src/components/admin/AdminCategories.tsx:130-136 | every slug uses only a-z, 0-9, а-я and dashes, has no two dashes in a row and no dash at either end |
| AdminCategories.CollapseFacts | src/components/admin/AdminCategories.tsx:134 | collapsing dash runs adds no character, leaves no two dashes in a row and keeps the first character |
| AdminCategories.TrimFacts | src/components/admin/AdminCategories.tsx:135 | trimming one dash at each end of a collapsed string gives a slug |
| AdminCategories.GenerateSlugFixesSlugs | src/components/admin/AdminCategories.tsx:130-136 | a slug is its own slug |
| AdminCategories.CollapseKeeps | src/components/admin/AdminCategories.tsx:134 | a string without double dashes is left as it is |
| AdminCategories.GenerateSlugIdempotent | src/components/admin/AdminCategories.tsx:130-136 | generating a slug from a slug changes nothing |
| AdminCategories.UkrainianLettersSeparate | src/components/admin/AdminCategories.tsx:133 | і, ї, є and ґ, in either case, fall outside а-я and turn into separators, so alone they give an empty slug |
| AdminCategories.UkrainianLettersSplitNames | src/components/admin/AdminCategories.tsx:130-136 | a letter і, ї, є or ґ anywhere in a name becomes a separator at its own position, and no generated slug contains one |
| AdminCategories.InitialFormData | src/components/admin/AdminCategories.tsx:121-128 | a new category starts blank and active; an edited one copies its fields, with missing texts as empty, a zero or missing parent as none, and its own active flag |
| AdminCategories.NameChanged | src/components/admin/AdminCategories.tsx:138-145 | the name is set, and the slug is generated from it only while the slug is still empty; nothing else changes |
| AdminCategories.SlugEdited | src/components/admin/AdminCategories.tsx:167 | editing the slug sets only the slug |
| AdminCategories.SlugSticks | src/components/admin/AdminCategories.tsx:143 | once typing a name has generated a non-empty slug, further name changes keep it |
| AdminCategories.ParentChoice | src/components/admin/AdminCategories.tsx:185 | the empty choice means no parent and any other is parsed as an integer |
| AdminCategories.ParentChanged | src/components/admin/AdminCategories.tsx:185 | choosing a parent sets only the parent |
| AdminCategories.ParentOptions | src/components/admin/AdminCategories.tsx:152-154 | one option per root category other than the one being edited, in order, valued by its id as text and captioned by its name |
| AdminCategories.ParentOptionsAreRoots | src/components/admin/AdminCategories.tsx:152-154 | every option is a root category other than the edited one, and choosing it stores that category's id |
| AdminCategories.NotOwnParent | src/components/admin/AdminCategories.tsx:153 | an edited category is never offered as its own parent |
| AdminCategories.CategoryManager.constructor | src/components/admin/AdminCategories.tsx:30-39 | the manager starts with no categories, no modal open, nothing selected, and one fetch on mount |
| AdminCategories.CategoryManager.FetchSettled | src/components/admin/AdminCategories.tsx:41-92 | a settled fetch replaces the shown categories with the list it built and changes nothing else |
| AdminCategories.CategoryManager.OpenAdd | src/components/admin/AdminCategories.tsx:220-222 | the add button opens the add modal and changes nothing else |
| AdminCategories.CategoryManager.CloseAdd | src/components/admin/AdminCategories.tsx:295-298 | closing or cancelling the add modal closes only it |
| AdminCategories.CategoryManager.StartEdit | src/components/admin/AdminCategories.tsx:268-270 | a card's edit button starts editing that category and changes nothing else |
| AdminCategories.CategoryManager.CloseEdit | src/components/admin/AdminCategories.tsx:304-311 | closing or cancelling the edit modal ends editing only |
| AdminCategories.CategoryManager.SubmitEdit | src/components/admin/AdminCategories.tsx:306-310 | the edit form, shown only while a category is edited, requests the edit of that category's id, ends editing and refetches |
| AdminCategories.CategoryManager.AskDelete | src/components/admin/AdminCategories.tsx:279-280 | asking to delete selects the category and opens the confirmation, changing nothing else |
| AdminCategories.CategoryManager.CancelDelete | src/components/admin/AdminCategories.tsx:319-327 | cancelling closes the confirmation and keeps the selection |
| AdminCategories.CategoryManager.HandleDelete | src/components/admin/AdminCategories.tsx:107-114 | without a selection nothing happens; with one, onDelete gets its id, the selection is cleared, the confirmation closes and categories are fetched again |
| AdminCategories.CategoryManager.HandleAdd | src/components/admin/AdminCategories.tsx:95-99 | onAdd gets the data, the add modal closes and categories are fetched again |
| AdminCategories.CategoryManager.HandleEdit | src/components/admin/AdminCategories.tsx:101-105 | onEdit gets the id and data, editing ends and categories are fetched again |
| AdminCategories.CategoryManager.HandleToggle | src/components/admin/AdminCategories.tsx:253 | onToggleActive gets the id and the negated flag, and nothing else changes |
| PaymentTypes.StatusName | src/types/payment.types.ts:6 | each status's name is its upper-case wire value |
| PaymentTypes.CompletedTotalConcat | src/components/admin/AdminPayments.tsx:97-99 | the completed total of two lists joined is the sum of their totals |
| PaymentTypes.SumByConcat | src/components/admin/AdminPayments.tsx:97-99 | a sum over a joined list splits into the sums over its parts |
| PaymentTypes.CompletedTotalBounds | src/components/admin/AdminPayments.tsx:97-99 | with non-negative amounts the completed total lies between 0 and the sum of all amounts |
| PaymentTypes.StatusCountsSum | src/types/payment.types.ts:6 | the four status counts of a list add up to its length, since each payment has exactly one status |
| AdminPayments.AddCompletedSums | src/components/admin/AdminPayments.tsx:97-99 | the reduce from a starting sum adds exactly the completed payments' amounts to it |
| AdminPayments.TotalAmountIsCompletedTotal | src/components/admin/AdminPayments.tsx:97-99 | the summary's total is the sum of the completed payments' amounts |
| AdminPayments.PaymentSummary | src/components/admin/AdminPayments.tsx:96-102 | the total is the completed total, and the three counts add up to the payments that are not refunded |
| AdminPayments.CountsCoverAllButRefunded | src/components/admin/AdminPayments.tsx:100-102 | the three counts never exceed the number of payments and equal it exactly when no payment is refunded |
| AdminPayments.BadgesDistinct | src/components/admin/AdminPayments.tsx:76-85 | two different statuses get badges with different variants and different captions |
| AdminPayments.PaymentMethodLabel | src/components/admin/AdminPayments.tsx:87-94 | the three known methods get their captions, any other method is shown as it is, and a missing one gets no label |
| AdminPayments.RowActions | src/components/admin/AdminPayments.tsx:247-276 | every row offers details and copying its transaction id, and a refund of that payment's id exactly when it is completed |
| PaymentsPage.FilteredPayments | src/pages/PaymentsPage.tsx:34-37 | the shown payments are a subsequence of the loaded ones, holding exactly those the filter keeps |
| PaymentsPage.AllKeepsEverything | src/pages/PaymentsPage.tsx:35 | the "all" filter shows every loaded payment in order |
| PaymentsPage.ButtonsSelectOneStatus | src/pages/PaymentsPage.tsx:34-37 | the pending, completed and failed buttons each keep exactly the payments of that status |
| PaymentsPage.RefundedOnlyUnderAll | src/pages/PaymentsPage.tsx:93 | among the four buttons, a refunded payment is shown only under "all" |
| PaymentsPage.TotalPaid | src/pages/PaymentsPage.tsx:39-41 | the page's filter-then-reduce total equals the admin summary's single conditional fold over all payments, and with non-negative amounts lies between 0 and the sum of all amounts |
| PaymentsPage.PendingCount | src/pages/PaymentsPage.tsx:83 | the pending count is the number of payments the pending filter shows |
| PaymentsPage.FilterSamePredicate | src/pages/PaymentsPage.tsx:83 | filtering with two predicates that agree everywhere gives the same list |
| PaymentsPage.PageBody | src/pages/PaymentsPage.tsx:109-204 | a spinner exactly while loading, else the error card exactly when there is an error, else the table of the filtered payments exactly when that is non-empty, else the empty card |
| PaymentsPage.RowActions | src/pages/PaymentsPage.tsx:166-186 | every row links to its own transaction's page, and offers a receipt exactly when it is completed |
| PaymentForm.Chunks | src/components/payments/PaymentForm.tsx:66 | the groups are all four characters long but the last, which has one to four, and together they spell the input |
| PaymentForm.ChunksAreDigits | src/components/payments/PaymentForm.tsx:65-66 | groups of a digit string hold only digits |
| PaymentForm.DigitsOfJoin | src/components/payments/PaymentForm.tsx:67 | dropping the non-digits from the space-joined groups gives the groups run together |
| PaymentForm.JoinAlphabet | src/components/payments/PaymentForm.tsx:67 | the space-joined digit groups hold only digits and spaces |
| PaymentForm.FormatCardNumber | src/components/payments/PaymentForm.tsx:64-68 | the result keeps exactly the input's digits in order, holds only digits and spaces, and is empty when there are no digits |
| PaymentForm.FormatCardNumberIdempotent | src/components/payments/PaymentForm.tsx:64-68 | formatting a formatted card number changes nothing |
| PaymentForm.FormatCardNumberLayout | src/components/payments/PaymentForm.tsx:64-68 | the formatted number has a space exactly at every fifth position and one space per full group of four that more digits follow |
| PaymentForm.ChunkLayout | src/components/payments/PaymentForm.tsx:66-67 | the groups of four of a digit string, joined by spaces, have a space exactly at every fifth position and one fewer space than groups |
| PaymentForm.FormatExpiryDate | src/components/payments/PaymentForm.tsx:70-76 | up to two digits are kept as they are, more become the first two, a slash and the next at most two, five characters at most |
| PaymentForm.ExpiryKeepsFirstFourDigits | src/components/payments/PaymentForm.tsx:70-76 | the digits of the formatted date are the first four digits of the input |
| PaymentForm.FormatExpiryDateIdempotent | src/components/payments/PaymentForm.tsx:70-76 | formatting a formatted expiry date changes nothing |
| PaymentForm.SectionFor | src/components/payments/PaymentForm.tsx:96-154 | the card fields show exactly for "card", the transfer notice exactly for "bank_transfer" and the cash notice exactly for "cash" |
| PaymentForm.SubmitCallbacks | src/components/payments/PaymentForm.tsx:53-58 | a failed payment reports the error's message or the default, a success with a link calls onSuccess with it first and reports onSuccess's own failure after it, a success without a link calls nothing, and no reported error is empty |
| PaymentForm.SuccessAndErrorExclusive | src/components/payments/PaymentForm.tsx:53-58 | with an onSuccess that does not throw, success is reported exactly for a resolved payment and an error exactly for a failed one |
| PaymentForm.PaymentFormState.constructor | src/components/payments/PaymentForm.tsx:27-34 | the form starts idle with empty card fields and the card method selected |
| PaymentForm.PaymentFormState.ChangeCardNumber | src/components/payments/PaymentForm.tsx:101-104 | the card number becomes the formatted input and nothing else changes |
| PaymentForm.PaymentFormState.ChangeExpiryDate | src/components/payments/PaymentForm.tsx:115-118 | the expiry date becomes the formatted input and nothing else changes |
| PaymentForm.PaymentFormState.ChangePaymentMethod | src/components/payments/PaymentForm.tsx:92 | the method becomes the chosen one and nothing else changes |
| PaymentForm.PaymentFormState.Submit | src/components/payments/PaymentForm.tsx:42-62 | one create request with the form's amount, description and order id is sent, the callbacks are those of the outcome, loading is off afterwards and the fields are unchanged |
| ImageUploader.FilesToUpload | src/components/listings/ImageUploader.tsx:26-28 | the files sent are the first ones that fit into the free slots, none at the limit, and as many dropped from the end as the gallery is over the limit when it is |
| ImageUploader.UploadFitsFreeSlots | src/components/listings/ImageUploader.tsx:27-28 | below the limit, the upload takes as many files as fit and never more than the free slots |
| ImageUploader.AfterUpload | src/components/listings/ImageUploader.tsx:30-35 | a failed upload changes nothing, and a successful one appends the returned URLs, or none when absent, after the current images |
| ImageUploader.GalleryStaysWithinLimit | src/components/listings/ImageUploader.tsx:27-32 | when no more URLs come back than files were sent, the new gallery stays within the limit |
| ImageUploader.DropIndex | src/components/listings/ImageUploader.tsx:44 | filtering out one position drops the image there and keeps the others in order, and a position outside the list drops nothing |
| ImageUploader.RemoveImage | src/components/listings/ImageUploader.tsx:43-46 | removing an index inside the gallery drops exactly that image, and any other index leaves the gallery as it is |
| ImageUploader.AddTileIffUploadPossible | src/components/listings/ImageUploader.tsx:72 | the add tile is shown exactly when a chosen file would be uploaded |
| ImageUploader.Uploader.constructor | src/components/listings/ImageUploader.tsx:15-18 | the limit is the given one or 5, and nothing is uploading or recorded yet |
| ImageUploader.Uploader.HandleFileSelect | src/components/listings/ImageUploader.tsx:20-41 | with no files nothing happens; otherwise the fitting files are uploaded, onChange gets the new gallery unless the upload failed, and the input is cleared with uploading off |
| ImageUploader.Uploader.HandleRemoveImage | src/components/listings/ImageUploader.tsx:43-46 | onChange gets the gallery without that image and nothing else changes |
| CategoryTree.ToggleExpand | src/components/categories/CategoryTree.tsx:18-26 | the toggled id flips its membership and every other id keeps it |
| CategoryTree.ToggleTwice | src/components/categories/CategoryTree.tsx:18-26 | toggling the same id twice restores the expanded set |
| CategoryTree.ControlFor | src/components/categories/CategoryTree.tsx:31-49 | a category without children gets no chevron, and one with children the down chevron exactly when it is expanded |
| CategoryTree.RowLevels | src/components/categories/CategoryTree.tsx:67-73 | no row of a tree is shown at a level above the one it starts at |
| CategoryTree.TopRows | src/components/categories/CategoryTree.tsx:30 | one row per category of the list, in order, each at the list's level |
| CategoryTree.OwnLevelListsAll | src/components/categories/CategoryTree.tsx:30-73 | the rows at a tree's own level are exactly its categories in order, whatever is expanded below them |
| CategoryTree.NestedRowsHidden | src/components/categories/CategoryTree.tsx:67-73 | the rows of a nested tree are all deeper than the level that shows it |
| CategoryTree.NothingExpanded | src/components/categories/CategoryTree.tsx:67-73 | with nothing expanded only the top categories are shown |
| CategoryTree.Unmount | src/components/categories/CategoryTree.tsx:67-73 | collapsing a category drops the expanded state of every tree nested under it and keeps all others |
| CategoryTree.Toggle | src/components/categories/CategoryTree.tsx:18-26 | the toggle flips the id in its own tree, collapsing forgets the state below that category and keeps every other tree's state, and expanding keeps every other tree's state, including those below that category |
| CategoryTree.ReexpandStartsCollapsed | src/components/categories/CategoryTree.tsx:67-73 | collapsing and expanding a category again shows its children all collapsed and restores its own tree's set |
| CategoryTree.TreeView.constructor | src/components/categories/CategoryTree.tsx:16 | no tree has anything expanded |
| CategoryTree.TreeView.ToggleExpand | src/components/categories/CategoryTree.tsx:18-26 | the state becomes the toggled one |
| NotificationsList.FilteredNotifications | src/components/notifications/NotificationsList.tsx:39-43 | the shown notifications are a subsequence of the loaded ones: the unread ones for "unread", the read ones for "read", and all of them for any other type |
| NotificationsList.ReadAndUnreadPartition | src/components/notifications/NotificationsList.tsx:39-43 | the unread and the read lists together hold every loaded notification exactly once |
| NotificationsList.EmptyTitle | src/components/notifications/NotificationsList.tsx:89-91 | each type shows its own empty-list title, and any other type the generic one |
| NotificationsList.Render | src/components/notifications/NotificationsList.tsx:45-105 | a spinner exactly while loading with nothing loaded; otherwise the badge shows exactly a positive unread count, the items are the filtered list, the empty title shows exactly when it is empty and is then the title for the current filter, and the page count is the loaded count over 10 rounded up |
| NotificationsList.EmptyListHasNoPages | src/components/notifications/NotificationsList.tsx:101-105 | with nothing loaded the pager is given 0 pages |
| NotificationsList.PageCountFitsList | src/components/notifications/NotificationsList.tsx:103 | the page count covers every loaded notification, and one page fewer would not |
| NotificationsList.NotificationsPanel.constructor | src/components/notifications/NotificationsList.tsx:18-23 | the list starts on page 1 of all notifications and fetches that page with limit 10 |
| NotificationsList.NotificationsPanel.SetPage | src/components/notifications/NotificationsList.tsx:21-23 | the page becomes the given one, and a fetch of it follows exactly when the page changed |
| NotificationsList.NotificationsPanel.SetType | src/components/notifications/NotificationsList.tsx:19-23 | the type becomes the chosen one and nothing is fetched |
| UserListingsPage.FilteredListings | src/pages/UserListingsPage.tsx:40-44 | the shown listings are a subsequence of the user's: the active ones for "active", the inactive ones for "inactive", and all of them for any other filter |
| UserListingsPage.ActiveAndInactivePartition | src/pages/UserListingsPage.tsx:40-44 | the active and the inactive lists together hold every listing exactly once |
| UserListingsPage.EmptyHeading | src/pages/UserListingsPage.tsx:127-129 | "all" and "active" get their own empty-list headings and every other filter the inactive one |
| UserListingsPage.HeadingsDistinct | src/pages/UserListingsPage.tsx:127-129 | the three filters' empty headings differ |
| UserListingsPage.PageBody | src/pages/UserListingsPage.tsx:85-138 | a spinner exactly while loading, the filtered cards exactly when there are some, with the pager exactly when the metadata reports more than one page, and otherwise the filter's empty heading |
| UserListingsPage.ShowPage | src/pages/UserListingsPage.tsx:73-138 | the error alert shows exactly for a non-empty error and beside any body, spinner included; the count shown is of all the user's listings, never fewer than the filtered ones; the body is the page body |
| UserListingsPage.UserListingsView.constructor | src/pages/UserListingsPage.tsx:18-23 | the view starts on page 1 of all listings and fetches that page with limit 12 |
| UserListingsPage.UserListingsView.SetCurrentPage | src/pages/UserListingsPage.tsx:21-23 | the page becomes the given one, and a fetch of it follows exactly when the page changed |
| UserListingsPage.UserListingsView.SetFilter | src/pages/UserListingsPage.tsx:19-23 | the filter becomes the chosen one and nothing is fetched |
| UserListingsPage.UserListingsView.HandleDelete | src/pages/UserListingsPage.tsx:25-32 | the listing is deleted, and the current page is fetched again exactly when the delete succeeded |
| ListingsPage.Lookup | src/pages/ListingsPage.tsx:19-32 | a key is found exactly when some entry carries it |
| ListingsPage.OptionalNumber | src/pages/ListingsPage.tsx:21-29 | an absent or empty parameter gives undefined, and any other the integer parsed from it |
| ListingsPage.ParsedValue | src/pages/ListingsPage.tsx:19-32 | page is the parsed parameter or 1, the category and the prices are optional numbers, and the text filters are the parameter or their default |
| ListingsPage.ParseFilters | src/pages/ListingsPage.tsx:18-33 | the filters hold the eight keys in their order, each with its parsed value |
| ListingsPage.LookupAt | src/pages/ListingsPage.tsx:18-33 | with distinct keys, looking up an entry's key finds that entry's value |
| ListingsPage.LookupParsed | src/pages/ListingsPage.tsx:18-33 | the parsed filters have distinct keys, each of the eight keys maps to its parsed value and no other key is present |
| ListingsPage.DefaultFilters | src/pages/ListingsPage.tsx:18-33 | an empty query gives page 1, empty search and location, no category or prices, and sorting by createdAt descending |
| ListingsPage.OtherKeysNotRestored | src/pages/ListingsPage.tsx:18-33 | a URL parameter outside the eight filter keys does not reach the filters |
| ListingsPage.UrlSet | src/pages/ListingsPage.tsx:46 | setting a key the query does not yet hold appends it |
| ListingsPage.Serialized | src/pages/ListingsPage.tsx:43-48 | every URL parameter comes from a filter key |
| ListingsPage.SerializeFilters | src/pages/ListingsPage.tsx:43-48 | the loop builds exactly the URL parameters the serialization defines |
| ListingsPage.LookupSerialized | src/pages/ListingsPage.tsx:43-48 | a filter is in the URL, as its string, exactly when it is neither undefined, null nor empty |
| ListingsPage.LookupAppend | src/pages/ListingsPage.tsx:44-47 | a lookup in two joined lists finds the first list's entry when it has the key, else the second's |
| ListingsPage.JsIntStringNonEmpty | src/pages/ListingsPage.tsx:46 | an integer's string is never empty, so numbers always reach the URL |
| ListingsPage.ParsedValueRoundTrip | src/pages/ListingsPage.tsx:18-48 | parsing the URL written from parsed filters gives each filter key its parsed value back |
| ListingsPage.ParseSerializeRoundTrip | src/pages/ListingsPage.tsx:18-48 | parsing the URL written from parsed filters gives the same filters again |
| ListingsPage.WithValue | src/pages/ListingsPage.tsx:52-57 | the spread sets the key to the new value, keeps every other key's value and the order of the keys, and appends the key when it is new |
| ListingsPage.WithValueDistinct | src/pages/ListingsPage.tsx:52-57 | setting a key keeps the keys distinct |
| ListingsPage.FilterChanged | src/pages/ListingsPage.tsx:52-54 | changing the filters resets the page to 1 and keeps every other filter as given |
| ListingsPage.PageChanged | src/pages/ListingsPage.tsx:56-59 | changing the page sets it and keeps every other filter |
| ListingsPage.FilterChangeWritesFirstPage | src/pages/ListingsPage.tsx:43-54 | after a filter change the URL holds page "1" |
| ListingsPage.PageChangeKeepsOtherParameters | src/pages/ListingsPage.tsx:43-59 | after a page change every other URL parameter is as before |
| ListingsPage.ListingsView.Sync | src/pages/ListingsPage.tsx:39-50 | the effect fetches with the current filters and writes their URL parameters |
| ListingsPage.ListingsView.constructor | src/pages/ListingsPage.tsx:18-50 | the filters are parsed from the URL, fetched once and written back to the URL |
| ListingsPage.ListingsView.HandleFilterChange | src/pages/ListingsPage.tsx:39-54 | the filters become the new ones on page 1, are fetched and written to the URL |
| ListingsPage.ListingsView.HandlePageChange | src/pages/ListingsPage.tsx:39-59 | the filters move to the given page, are fetched and written to the URL |
| AdminLayout.FirstActive | src/components/layout/AdminLayout.tsx:151 | the found item is active and no earlier one is, and nothing is found exactly when no item is active |
| AdminLayout.Title | src/components/layout/AdminLayout.tsx:151 | the header shows the first active item's caption, or "Admin Panel" when none is active |
| AdminLayout.DashboardOnlyOnItsPath | src/components/layout/AdminLayout.tsx:40-42 | the dashboard item is active only on /admin itself |
| AdminLayout.PrefixActivates | src/components/layout/AdminLayout.tsx:40-42 | every other item is active on any path that starts with its own |
| AdminLayout.UsersPrefixTitle | src/components/layout/AdminLayout.tsx:40-42 | every path that starts with /admin/users, such as /admin/usersX, shows the users caption |
| AdminLayout.DashboardTitle | src/components/layout/AdminLayout.tsx:151 | /admin shows "Dashboard" |
| AdminLayout.OwnPathTitle | src/components/layout/AdminLayout.tsx:30-42 | each item other than the dashboard shows its own caption on its own path and on every path that starts with it |
| AdminLayout.DifferAt | src/components/layout/AdminLayout.tsx:41 | a string that differs from another at a position both have does not start with it |
| AdminLayout.MenuUnderDashboard | src/components/layout/AdminLayout.tsx:30-38 | every menu path starts with /admin |
| AdminLayout.StartsWithTrans | src/components/layout/AdminLayout.tsx:41 | starting with a string that starts with a third means starting with the third |
| AdminLayout.OutsideAdminFallback | src/components/layout/AdminLayout.tsx:151 | a path outside /admin shows "Admin Panel" |
| AdminLayout.Shell.constructor | src/components/layout/AdminLayout.tsx:25-26 | nothing has been dispatched or navigated yet |
| AdminLayout.Shell.HandleLogout | src/components/layout/AdminLayout.tsx:44-47 | logout is dispatched and then the app navigates to /login |
| Routes.AdminRoute | src/routes/AdminRoute.tsx:5-17 | a signed-out user is sent to /login, a signed-in user who is not an admin to /, and the outlet renders exactly for a signed-in admin |
| Routes.ProtectedRoute | src/routes/ProtectedRoute.tsx:5-13 | the outlet renders exactly for a signed-in user, and anyone else is sent to /login |
| Routes.PublicRoute | src/routes/PublicRoute.tsx:5-13 | the outlet renders exactly for a signed-out user, and a signed-in one is sent to / |
| Routes.RedirectsReplace | src/routes/AdminRoute.tsx:9-13 | every redirect of the three guards replaces the history entry |
| Routes.SignInCheckFirst | src/routes/AdminRoute.tsx:8-10 | a signed-out user goes to /login whatever role is stored |
| Routes.OnlyTheFlagMatters | src/routes/ProtectedRoute.tsx:6-12 | the protected and the public guards depend on nothing but the signed-in flag |
| Routes.AdminImpliesProtected | src/routes/AdminRoute.tsx:8-16 | whoever passes the admin guard also passes the protected one |
| Routes.PublicAndProtectedExclusive | src/routes/PublicRoute.tsx:8-12 | every user passes exactly one of the public and the protected guards |

## Left out

- Rendering: JSX, styling, icons and layout components are not modelled. A view's branch structure is modelled as a datatype of what is shown (`PageBody`, `Render`, `RowActions`, `SectionFor`).
- Network and transport: axios calls, the domain API modules and the bodies of the async thunks are not modelled. Their results are the inputs of the reducers and handlers (`Outcome`, `UploadResponse`, `deleteSucceeds`).
- The `api` request wrapper's axios call: `HelperConfig` models only the config it builds.
- The JSON codec: `JSON.stringify` and `JSON.parse` are parameters of the storage functions. `SetThenGet` requires them to be inverse on the stored value and does not prove this about a real codec.
- Storage quota and access errors: a write's success is the `accepts` parameter. An exception from the backing store is a refused write, and it is caught as the source catches it.
- The storage event listener and `sessionStorage` are not modelled. Only the `localStorage`-backed instances are.
- Storage.PrefixedStorage.Clear, Storage.PrefixedStorage.GetAllKeys: the model fixes an order for `storage.key(i)` that the Web Storage standard leaves to the browser. Keys are listed in insertion order. Removing a key moves only the later keys down one place. The standard keeps the order stable only while the number of keys stays the same. The proof that the backward `clear` loop removes every prefixed key, and the listing order `getAllKeys` returns, both hold under this ordering (the model's `Put`, `Remove` and `KeyIndex`, with `ClearStep` and `ClearDone`). A browser that reorders the remaining keys after a removal is not modelled.
- Object key order: `Object.keys`/`Object.entries` order is the order of a `seq`. String-keyed datatypes and JS objects with numeric keys are not told apart.
- Characters and UTF-16: a Dafny `char` is one Unicode scalar value, while a JavaScript string is a sequence of UTF-16 units. Only the length validator counts units (`Validators.Utf16LengthBmp`, `Validators.Utf16LengthAppendAstral`); indexing, slicing and the other length uses treat a character outside the basic plane as one, where JavaScript sees two.
- `toLowerCase`: only ASCII and Cyrillic letters are lowered. Other scripts are left unchanged, as most of them have no case.
- Intl formatting: `formatDate`, `formatCurrency`, `formatNumber` and `toLocaleString` are not modelled. `formatRelativeTime` hands its old dates to a `formatDate` parameter.
- Clocks and dates: `Date.now()` and `new Date()` are integer parameters in milliseconds. Dates that parse to NaN are not modelled.
- Numbers: JS numbers are Dafny integers. Prices, amounts and page numbers are therefore never fractional, and printing a non-integer is not modelled. `parseInt` gives an integer or NaN.
- Console output: `console.error` and `console.warn` are not modelled. The branch they sit in is.
- Concurrency: timers, React effect scheduling and stale closures are not modelled. This covers the reconnect `setTimeout`, the `useEffect` cleanups, and the `subscribers` closure inside `onmessage`. Each handler runs to completion against the current state. The reconnect is recorded as a scheduled flag, not as a later call.
- UseSocket.SocketHook.Receive: prototype-property event names are not modelled. An event named like an `Object.prototype` member (`"constructor"`) is treated as an ordinary key without subscribers.
- AdminPayments.PaymentMethodLabel: same limitation. A method named like an `Object.prototype` member is shown as itself rather than as the prototype's value.
- AdminListings.ListingsTable.constructor: requires `itemsPerPage >= 1`. In the source `itemsPerPage` is an optional prop that defaults to 10 (src/components/admin/UsersList.tsx:290, 299); a caller passing 0 or a negative number gets non-integer page counts from `Math.ceil`, which the model does not cover.
- Optional callbacks: `onSubmit`, `onSuccess`, `onError`, `onRefund`, `onViewDetails` and `onChange` are recorded as called whether or not the parent supplied them. An absent one calls nothing.
- Mock data: the generated lists of the admin screens (`Math.random` and `Date.now()`) are inputs. The generated notification id of the UI slice is a parameter.
- UserListingsPage.PageBody: reads the pager's page count from the slice's `Meta.pages`. The page itself reads `meta.totalPages`, which the slice's type does not declare.
- Input limits: `maxLength` on the card fields is a browser constraint, not code, and is not modelled.
- AdminPayments: the fixed `totalPages` of 10 and the search and status inputs, which filter nothing, are not modelled.
- Effect dependencies: the refetch on a page change is modelled as a fetch exactly when the page value changes. React's identity checks on other dependencies (`dispatch`, `setSearchParams`) are not modelled.
- The `createPayment` thunk: modelled by its settled outcome, a payment link or an error message.
- `notificationsSlice` and `paymentsSlice` are not part of this model. Their state is an input of the views that read it.
- `window.scrollTo` in `handlePageChange` and the `fetchCategories` dispatch on the listings page's mount are not modelled.
- `window.location.href` and `navigate`: both are modelled as a recorded navigation target only.
- Listing types: the `sortBy` and `sortOrder` parameters are strings. The TypeScript union they are cast to is not enforced, as it is not enforced at run time either.
- The zod and yup schemas, react-hook-form and the ReCAPTCHA widget are not part of this model. They are foreign libraries.
- Chart components and the commented-out code of the admin views are not part of this model.
- CategoryTree: the toggle's fresh `Set` copy holds by construction, since Dafny sets are values. The per-subtree React state is modelled as one map from tree path to expanded set, with unmounting on collapse.

## Findings

| source | as written | input that shows it | evidently intended | confidence | as-written member | corrected member |
|---|---|---|---|---|---|---|
| src/components/common/Pagination.tsx:62 | Next is disabled only when `currentPage === totalPages` (and again at line 113 for wide screens) | `totalPages` 0 with `currentPage` 1, which the notifications list passes when nothing is loaded (src/components/notifications/NotificationsList.tsx:101-105): Next is enabled and asks for page 2 | Next disabled once `currentPage >= totalPages` | not executed | Pagination.NextEnabledWithoutPages | Pagination.ButtonsStayInRange |
