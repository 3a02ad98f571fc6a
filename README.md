# Smart Wardrobe Assistant — a Dafny model of its client logic and demo blog service

The application keeps a wardrobe of clothing items for each signed-in user in the
browser's storage and asks a generative-AI service to classify photos and to suggest
outfits. This project models the parts of it that have logic:

- **Authentication** (`contexts/AuthContext.tsx`): accounts in a persistent slot, the
  signed-in identity in a tab-scoped slot and in `currentUser`; signup, login, logout.
  Module `AuthContext`, class `AuthProvider`.
- **The wardrobe hook** (`hooks/useWardrobe.ts`): the per-user storage key, the load and
  save effects, adding (newest first) and removing by id. Module `UseWardrobe`, class
  `WardrobeHook`.
- **The AI glue** (`services/geminiService.ts`, `constants.ts`, `types.ts`): category
  normalisation, the single error message each call surfaces, the item projection and
  the weather sentence of the outfit prompt, the category list. Modules `GeminiService`,
  `Constants`, `Types`.
- **The dialogs and the sign-in form** (`components/OutfitModal.tsx`,
  `components/AddItemModal.tsx`, `components/Auth.tsx`): their state fields and handlers.
  Modules `OutfitModal`, `AddItemModal`, `AuthForm`.
- **The demo blog service** (`blog-backend/`): in-memory users and posts, and the
  bearer-token middleware. Modules `BlogHttp`, `BlogUsers`, `PostController`,
  `AuthMiddleware`.

Helper modules: `Wrappers` (Option, Result), `Storage` (a storage slot is `Missing`,
`Corrupt` or `Stored(value)`), `Strings` (lower-casing, `split` and its second field,
infix, decimal digits, an error message with its fallback), `Seqs` (the `filter` of the source and
what "subsequence" means).

Every remote or browser facility is an input: the AI service's three calls are oracle
functions from what is sent to the parsed reply (`None` for any transport or parse
failure), JWT `sign`/`verify` are oracle functions, the clock (read twice for a new item, once for
its id and once for its creation time) and the random id token are parameters, and the geolocation answer and the file reader's data URL are method
arguments. Storage is a value per slot; the JSON round trip is taken for granted.

Stateful code is modelled as classes whose methods state the new value of every field
they touch, in terms of pure functions of the old state; the properties the application
promises are proved about those functions as lemmas.

Where the code and its design description differ, the model follows the code:
- The design says an outfit's `itemIds` are a subset of the known ids. The code never
  checks this. The model accepts any ids, and `OutfitModal.RecommendedItems` drops the
  unknown ones.
- The design treats the email as a case-insensitive key. Login and signup, however, store
  the email in the session as typed, and the wardrobe slot is named after that text. So
  the same account signed in with different capitalisation sees a different wardrobe
  (`UseWardrobe.StorageKeyFollowsTypedCase`).
- The weather sentence's degree sign is, in the source file, the two characters
  U+00C2 U+00B0. The model spells it that way.

## Model

| member | source | states |
|---|---|---|
| `Types.CategoryValue` | types.ts:1-9 | every category stands for a non-empty string value |
| `Constants.CategoriesList` | constants.ts:4 | the list is the six values Tops, Bottoms, Outerwear, Footwear, Accessories, Dresses in declaration order, and "Unknown" is not in it |
| `Constants.EveryKnownCategoryListed` | constants.ts:4 | a category's value is in the list exactly when the category is not Unknown |
| `Constants.CategoriesListDistinct` | constants.ts:4 | the list's entries are pairwise distinct |
| `Constants.ListedCategory` | services/geminiService.ts:63 | `includes` answers yes exactly for strings in the list, and then names a category other than Unknown with that value |
| `Strings.ToLower` | contexts/AuthContext.tsx:47 | lower-casing keeps the length and folds each letter A-Z to its lower-case form, leaving other characters alone |
| `Strings.SecondField` | blog-backend/middleware/auth.js:5 | `split(sep)[1]` is undefined exactly when the separator does not occur, and never contains the separator |
| `Strings.JoinSplit` | blog-backend/middleware/auth.js:5 | the parts of `split` joined with the separator give back the original string |
| `Strings.SecondFieldOf` | components/AddItemModal.tsx:53 | in `a,b` followed by nothing or by another separator, with no separator in `a` or `b`, the second field is `b` |
| `Strings.DecimalString` | hooks/useWardrobe.ts:52 | the time stamp in an id is a non-empty string of decimal digits, with no leading zero, whose decimal value is the number rendered |
| `Strings.DecimalStringInjective` | hooks/useWardrobe.ts:52 | different times render as different digit strings |
| `Strings.Split` | blog-backend/middleware/auth.js:5 | `split(sep)` gives at least one part; together with `Strings.JoinSplit` and `Strings.SplitPartsHaveNoSeparator` this fixes the parts completely |
| `Strings.SplitPartsHaveNoSeparator` | components/AddItemModal.tsx:53 | no part of `split(sep)` contains the separator |
| `Seqs.FilterIsSubsequence` | hooks/useWardrobe.ts:60 | `filter` keeps the kept elements in their original order |
| `Seqs.FilterCounts` | components/OutfitModal.tsx:24 | `filter` keeps every copy of an element that passes the test and no copy of one that fails it |
| `Seqs.FilterMembership` | components/OutfitModal.tsx:24 | an element is in the result of `filter` exactly when it is in the input and passes the test |
| `Strings.MessageOr` | components/OutfitModal.tsx:70 | an error's message is shown unless it is empty, in which case the fallback text is |
| `AuthContext.ReadSession` | contexts/AuthContext.tsx:10-18 | the initial user is the stored session, and nobody when the slot is absent or unparsable |
| `AuthContext.ReadUsers` | contexts/AuthContext.tsx:26-34 | the account list is the stored list, and empty when the slot is absent or unparsable |
| `AuthContext.FindUser` | contexts/AuthContext.tsx:71 | `find` returns nothing exactly when no email matches ignoring case; otherwise it returns the first matching account |
| `AuthContext.SignupUsers` | contexts/AuthContext.tsx:46-56 | signup fails with "An account with this email already exists." exactly when an email matches ignoring case; otherwise the list grows by `{email, password}` at the end and earlier entries are unchanged |
| `AuthContext.LoginSession` | contexts/AuthContext.tsx:70-79 | a login failure is "Invalid email or password."; an unknown email always fails; a success holds `{email}` as typed, and some account matches that email ignoring case and the password exactly |
| `AuthContext.SignupKeepsEmailsDistinct` | contexts/AuthContext.tsx:47-56 | signup preserves "no two emails equal ignoring case" |
| `AuthContext.LoginAcceptsExactlyMatchingAccount` | contexts/AuthContext.tsx:70-75 | with distinct emails, login succeeds exactly when some account matches the email ignoring case and the password exactly |
| `AuthContext.LoginChecksFirstMatchOnly` | contexts/AuthContext.tsx:71-73 | if stored emails clash up to case, only the first one's password is accepted |
| `AuthContext.AuthProvider.constructor` | contexts/AuthContext.tsx:10-18 | mounting reads `currentUser` from the session slot, so the two agree |
| `AuthContext.AuthProvider.SaveUsers` | contexts/AuthContext.tsx:36-42 | the whole list is written to the accounts slot |
| `AuthContext.AuthProvider.Signup` | contexts/AuthContext.tsx:44-66 | a rejection leaves the accounts, session slot and `currentUser` unchanged; a success stores the grown list and sets both the session slot and `currentUser` to `{email}`, with no password; the session and `currentUser` stay in agreement, and emails that were distinct ignoring case stay so |
| `AuthContext.AuthProvider.Login` | contexts/AuthContext.tsx:68-85 | the accounts are never modified; a rejection leaves the session unchanged; a success sets the session slot and `currentUser` to `{email}` as typed |
| `AuthContext.AuthProvider.Logout` | contexts/AuthContext.tsx:87-94 | the user and the session slot are cleared whatever the state, so logging out twice is logging out once; the machine is Anonymous afterwards |
| `UseWardrobe.StorageKey` | hooks/useWardrobe.ts:10-12 | the key is `"ai-wardrobe-items-" + email` when signed in and none when signed out |
| `UseWardrobe.StorageKeyInjective` | hooks/useWardrobe.ts:10-12 | different users never share a wardrobe slot |
| `UseWardrobe.StorageKeyIsNotUsersKey` | hooks/useWardrobe.ts:11 | no wardrobe slot is the accounts slot |
| `UseWardrobe.StorageKeyFollowsTypedCase` | hooks/useWardrobe.ts:11 | an account registered as `a@x` can sign in as `A@x`, and then gets a different slot from `a@x` |
| `UseWardrobe.SlotAt` | hooks/useWardrobe.ts:23 | a key never written reads as absent |
| `UseWardrobe.LoadedItems` | hooks/useWardrobe.ts:22-32 | loading yields the stored list, and the empty list for an absent or unparsable slot |
| `UseWardrobe.NewItemId` | hooks/useWardrobe.ts:52 | generated ids start with `"item-"` |
| `UseWardrobe.NewItem` | hooks/useWardrobe.ts:50-54 | the new item carries the draft's fields, an id built from the first clock reading and the token, and the second clock reading as its creation time; the two readings may differ |
| `UseWardrobe.WithItemAdded` | hooks/useWardrobe.ts:55 | adding grows the list by one with the new item first and the old items after it, in their order |
| `UseWardrobe.WithoutItem` | hooks/useWardrobe.ts:60 | no item with the removed id remains |
| `UseWardrobe.WithoutItemKeepsTheOthers` | hooks/useWardrobe.ts:60 | every item with another id is kept as often as before, in the original order |
| `UseWardrobe.WithoutAbsentItem` | hooks/useWardrobe.ts:60 | removing an id no item has leaves the list unchanged |
| `UseWardrobe.WithoutItemIdempotent` | hooks/useWardrobe.ts:60 | removing the same id twice is removing it once |
| `UseWardrobe.SavingIsolatesUsers` | hooks/useWardrobe.ts:37-46 | writing one user's wardrobe leaves every other user's slot as it was |
| `UseWardrobe.WardrobeHook.constructor` | hooks/useWardrobe.ts:7-8 | the hook starts with an empty list, not yet loaded |
| `UseWardrobe.WardrobeHook.SetCurrentUser` | hooks/useWardrobe.ts:6 | the hook serves whichever user the authentication context holds |
| `UseWardrobe.WardrobeHook.Load` | hooks/useWardrobe.ts:15-35 | signed out, the list is cleared and `isLoaded` is untouched; signed in, the list is what the user's slot holds and `isLoaded` is set |
| `UseWardrobe.WardrobeHook.Save` | hooks/useWardrobe.ts:37-46 | the whole list is written to the current user's slot only once loaded and only when signed in; no other slot changes |
| `UseWardrobe.WardrobeHook.AddItem` | hooks/useWardrobe.ts:48-56 | signed out, nothing changes; signed in, the new item is prepended |
| `UseWardrobe.WardrobeHook.RemoveItem` | hooks/useWardrobe.ts:58-61 | signed out, nothing changes; signed in, the items with that id are filtered out |
| `UseWardrobe.SignedOutSession` | hooks/useWardrobe.ts:15-19 | after signing out and loading, the wardrobe is empty, and adding and saving change no slot |
| `UseWardrobe.AddSaveReload` | hooks/useWardrobe.ts:37-56 | add, save, reload gives the new item first, with an `item-` id, followed by the earlier items |
| `GeminiService.FileToGenerativePart` | services/geminiService.ts:14-21 | the base64 data and MIME type pass through unchanged |
| `GeminiService.NormalizeClassification` | services/geminiService.ts:63-68 | name and sub-category are kept; a listed category keeps its value, an unlisted one becomes Unknown |
| `GeminiService.NormalizeKeepsListedCategory` | services/geminiService.ts:63-68 | a reply naming a category other than Unknown keeps that category; "Unknown" itself stays Unknown |
| `GeminiService.CategorizeClothingItem` | services/geminiService.ts:23-74 | the service is given exactly the image part; it fails exactly when the reply fails, always with "Failed to analyze the image. Please try another one."; on success name and sub-category come from the reply, a listed category comes back with the reply's value, and the category is Unknown exactly when the reply's is unlisted |
| `GeminiService.GetWeatherForLocation` | services/geminiService.ts:76-113 | the weather is the reply, and any failure is "Could not fetch weather information for your location." |
| `GeminiService.ForPrompt` | services/geminiService.ts:122-127 | the projection keeps length and order, and each entry keeps exactly id, name, category and sub-category |
| `GeminiService.WeatherSentence` | services/geminiService.ts:129-131 | the sentence is empty exactly when no weather is given, and otherwise contains the temperature and the description |
| `GeminiService.RecommendationAttempt` | services/geminiService.ts:117-172 | an empty wardrobe throws "Wardrobe is empty." before any request |
| `GeminiService.GetOutfitRecommendation` | services/geminiService.ts:116-178 | every failure is "Failed to generate an outfit. Please try a different prompt."; an empty wardrobe always fails; otherwise the result is the reply to the projected items, the occasion and the weather sentence |
| `GeminiService.EmptyWardrobeIsRewrapped` | services/geminiService.ts:118-177 | the inner "Wardrobe is empty." is replaced by the generic message, which differs from it |
| `OutfitModal.RecommendedItems` | components/OutfitModal.tsx:24 | empty without a recommendation; otherwise a subsequence of the wardrobe holding every copy of each item whose id is recommended and nothing else |
| `OutfitModal.RecommendedItemsFollowWardrobeOrder` | components/OutfitModal.tsx:24 | the items come out in wardrobe order, not `itemIds` order, and unknown ids are ignored |
| `OutfitModal.ServiceMessagesAreShown` | components/OutfitModal.tsx:43 | the service's failure messages are never empty, so the fallbacks never show |
| `OutfitModal.OutfitModalState.constructor` | components/OutfitModal.tsx:15-22 | the dialog starts with every field at its initial value |
| `OutfitModal.OutfitModalState.SetPrompt` | components/OutfitModal.tsx:97 | typing replaces the prompt |
| `OutfitModal.OutfitModalState.HandleFetchWeather` | components/OutfitModal.tsx:26-34 | without geolocation only the weather error is set and no position is requested; otherwise fetching starts with no weather and no error |
| `OutfitModal.OutfitModalState.OnPosition` | components/OutfitModal.tsx:37-47 | the weather is set on success, the error on failure, and fetching ends either way |
| `OutfitModal.OutfitModalState.OnPositionError` | components/OutfitModal.tsx:48-51 | a refused position sets its error and ends fetching |
| `OutfitModal.OutfitModalState.StartRecommendation` | components/OutfitModal.tsx:55-64 | an empty prompt sets "Please describe the occasion." and calls nothing; otherwise loading is on and the error and recommendation are cleared before the call |
| `OutfitModal.OutfitModalState.SettleRecommendation` | components/OutfitModal.tsx:66-73 | success sets the recommendation, failure the error, and loading is off either way |
| `OutfitModal.OutfitModalState.HandleGetRecommendation` | components/OutfitModal.tsx:55-74 | the service is called exactly when the prompt is non-empty; afterwards loading is off, and either the recommendation is set with no error or the generic failure is shown with no recommendation |
| `OutfitModal.OutfitModalState.HandleClose` | components/OutfitModal.tsx:76-85 | all seven fields return to their initial values |
| `AddItemModal.ClassifiableData` | components/AddItemModal.tsx:53-54 | classification runs only when the data URL's field after its first comma is non-empty |
| `AddItemModal.DataUrlPayloadIsClassified` | components/AddItemModal.tsx:53-54 | for `header,payload` the payload is exactly what is classified |
| `AddItemModal.SubmitDraft` | components/AddItemModal.tsx:74-75 | a draft is handed on exactly when preview, name and sub-category are non-empty, whatever the category, Unknown included; it is exactly `{imageUrl: previewUrl, name, category, subCategory}` |
| `AddItemModal.AddItemForm.constructor` | components/AddItemModal.tsx:20-26 | the form starts pristine |
| `AddItemModal.AddItemForm.ResetForm` | components/AddItemModal.tsx:28-36 | every field returns to its initial value |
| `AddItemModal.AddItemForm.HandleClose` | components/AddItemModal.tsx:38-41 | closing resets the form |
| `AddItemModal.AddItemForm.HandleFileChange` | components/AddItemModal.tsx:43-70 | no file changes nothing; a file sets the preview and clears the error; the classifier is asked only for a non-empty payload; success overwrites name, category and sub-category; failure sets the error and keeps them; loading is off afterwards |
| `AddItemModal.AddItemForm.HandleSubmit` | components/AddItemModal.tsx:72-80 | the draft handed on is `SubmitDraft` of the fields; after a submit the form is pristine; otherwise "Please fill all fields and upload an image." is set and nothing else changes |
| `AuthForm.AuthFormState.constructor` | components/Auth.tsx:6-10 | the form starts in login mode with empty inputs |
| `AuthForm.AuthFormState.HandleSubmit` | components/Auth.tsx:13-29 | login mode performs exactly the login transition, with the accounts unchanged; signup mode performs exactly the signup transition; a rejection's message becomes the error, a success leaves no error; loading is off after settling |
| `AuthForm.AuthFormState.ToggleAuthMode` | components/Auth.tsx:31-36 | the mode flips, and the error, email and password are cleared |
| `BlogUsers.FindUser` | blog-backend/users.js:16 | a user is found exactly when one matches both username and password exactly, and it is then equal to the query |
| `BlogUsers.UserRouter.constructor` | blog-backend/users.js:6 | the user list starts empty |
| `BlogUsers.UserRouter.Register` | blog-backend/users.js:8-12 | `{username, password}` is appended with no check, and the reply is always "User registered successfully" |
| `BlogUsers.UserRouter.Login` | blog-backend/users.js:14-21 | with an exact match the reply carries a token signed for the username as supplied; otherwise it is 401 "Invalid credentials" with no token; the list is only read |
| `BlogUsers.RegisterTwice` | blog-backend/users.js:8-12 | registering the same name twice keeps both entries |
| `PostController.PostStore.constructor` | blog-backend/controllers/postController.js:1 | the post list starts empty |
| `PostController.PostStore.GetPosts` | blog-backend/controllers/postController.js:3-5 | the reply is the whole list in insertion order |
| `PostController.PostStore.CreatePost` | blog-backend/controllers/postController.js:7-11 | exactly one post is appended and earlier posts are unchanged; title and content come from the body unchecked; the author comes from the token payload, never the body; the reply is always "Post created successfully" |
| `AuthMiddleware.BearerToken` | blog-backend/middleware/auth.js:5-6 | a token exists exactly when the header is present and its second space-separated field is non-empty |
| `AuthMiddleware.TokenAfterAnySchemeWord` | blog-backend/middleware/auth.js:5 | the token is the second field whatever the first word is, and later fields are ignored |
| `AuthMiddleware.NoTokenAfterBareScheme` | blog-backend/middleware/auth.js:5-6 | a header with only a scheme word, or an empty second field, carries no token |
| `AuthMiddleware.Authenticate` | blog-backend/middleware/auth.js:4-15 | no token: 401 "Token required" with `req.user` untouched; failed verification: 403 "Invalid token" with `req.user` untouched; otherwise `req.user` is the decoded payload and `next` is the single outcome |

## Left out

- Rendering: all JSX and styling, and the purely presentational files `components/Modal.tsx`, `components/Header.tsx`, `components/WardrobeGrid.tsx`, `components/ItemCard.tsx` and `components/Spinner.tsx`. Also `App.tsx`, which only chooses what to render. Buttons disabled while loading, before a preview exists, or with fewer than two items are rendering; the handlers themselves do not check these conditions, and neither does the model.
- Wiring: `blog-backend/app.js` and `blog-backend/routes/postRoutes.js`. `PostController.PostStore.CreatePost` takes the payload that the middleware attaches; a request reaching it without `req.user` cannot happen through the routes.
- Remote calls: the AI SDK calls and `JSON.parse` of their replies are oracles. The replies are assumed to have the declared fields, as strings. Extra fields that `{...result}` would carry along are not modelled.
- Prompt text other than the weather sentence: the instructions, the category list joined into the classification prompt, and the response schemas.
- JWT: `sign` and `verify` are oracles. The secret and the one-hour expiry are not modelled.
- Clock and randomness: `Date.now()` and `Math.random()` are parameters. So the uniqueness of ids (probabilistic in the source) and "created no earlier than the call" are not stated.
- Browser facilities: `FileReader`, `navigator.geolocation` and the storage APIs. Each slot is a value, and the JSON round trip is assumed. A slot holding valid JSON of the wrong shape is not modelled.
- Storage write failures (`setItem` throwing, e.g. when the quota is full) are logged and swallowed by the source. The model treats every write as succeeding.
- Logging to the console.
- React scheduling: effect order, async interleaving, overlapping AI calls (a second photo chosen while one is being classified) and results arriving after a dialog has closed. Each handler is one sequential step. The load and save effects are separate methods that a caller runs in order. In the source, the save effect also runs in the same commit as the load effect when a user signs in. That momentarily writes the previous in-memory list into the new user's slot, before the loaded list is written back. The model does not capture this transient write.
- The provider's own `loading` flag and `useAuth`'s error outside a provider: both only gate rendering.
- Numbers: the weather temperature and the coordinates are kept opaque, as their rendered text.
- Blog request bodies: a field is a string or absent. Other JSON types are not modelled.
- Strings.ToLower: folds only the ASCII letters A-Z, because JavaScript's `toLowerCase` applies the full Unicode case mapping and that table is not modelled. So `Strings.SameIgnoringCase` may call two emails different that the source treats as the same.
