# Home-Away: validators, server actions and country lookup in Dafny

This project models the rule-bearing core of a property-rental web application:

- the zod input schemas for profile, property and image payloads, and the
  `validateWithZodSchema` entry point (`utils/schemas.ts`);
- the server actions that authenticate the caller, validate the form, upload
  an image and write to the database, plus the listing query
  `fetchProperties` (`utils/actions.ts`);
- the country table projection and lookup (`utils/countries.ts`).

Modules:

- `Results`: `Option`, `Result` and `Thrown`. A `Thrown` is the value a
  JavaScript `throw` hands to `catch`: an `Error` with its message, or
  something that is not an `Error`.
- `Strings`: the JavaScript string operations the core relies on.
  `split`/`join` on one separator come with both round-trip lemmas.
  `startsWith`, `includes` and an ASCII `toLowerCase` are also here.
- `Schemas`: each schema is a list of `Rule`s. A rule says whether a check
  holds and which path zod reports when it does not. Each schema also has
  a reference predicate (`ProfileValid`, `ImageValid`, `PropertyValid`)
  that states the acceptance rule directly. Validation is accepted exactly
  when the predicate holds. On failure it throws an `Error` whose message
  is the failing paths joined with ",". The model proves that this message
  splits back at the commas into exactly the failing keys. Nested image
  paths print as `image,size`.
- `Countries`: `formattedCountries` as an order-preserving projection of an
  abstract dataset, and `findCountryCode` as a first-match search.
- `Actions`: a `Backend` class holds the external state:
  - the profile table, a map keyed by the unique `clerkId`;
  - the property table, a sequence;
  - the identity provider's `hasProfile` flags;
  - the log of files handed to the upload service.

  Each action is a method with a `modifies this` frame. Its postcondition
  covers every branch: what it returns, and exactly what the store holds
  afterwards. The class invariant `Valid()` has three parts:
  - each profile sits under its own identity id, so there is at most one
    profile per identity;
  - every flagged identity has a profile, which holds because the flag is
    set only after the profile is written;
  - every property belongs to an existing profile.

  Every action preserves `Valid()`. `fetchProperties` is a pure filter, a
  newest-first sort and a projection over the property sequence.

External collaborators are parameters:
- the signed-in user is an `Option<User>`;
- the upload service is a function `File -> Result<string, Thrown>`;
- the database's generated property id and creation time are arguments.

`revalidatePath` and `redirect` appear only as outcome values: a `refresh`
out-parameter and the `Redirect` response.

Behaviour of the source worth noting:
- Both create actions in `utils/actions.ts` return `{ message }` from their
  `catch` block. They redirect only when the `try` block completes.
- The description bound in `utils/schemas.ts` is inclusive at both ends
  (10 and 1000 words are accepted).
- `createPropertyAction` reads `file.size` without checking that a file was
  sent. A missing file is therefore a runtime `TypeError`, which the action
  turns into `{ message }`. It fails before the upload; it does not create
  the property without an image.
- `profileId` of a new property is the caller's identity id (`user.id`).
- zod's `.min` and `.max` on strings measure JavaScript's `length`, which
  counts UTF-16 code units: a character outside the Basic Multilingual
  Plane counts twice. The model measures names and taglines the same way.

## Model

| member | source | states |
|---|---|---|
| Strings.Split | utils/schemas.ts:63 | `split(" ")` yields one more piece than there are separators, and no piece holds the separator |
| Strings.JoinSplit | utils/schemas.ts:63 | joining the pieces of a split with the separator gives back the original string |
| Strings.SplitJoin | utils/schemas.ts:22-23 | splitting a join of separator-free pieces gives back the pieces |
| Strings.EmptyContained | utils/actions.ts:190-201 | the default empty search occurs in every name and tagline, whatever the case |
| Schemas.ValidateWithZodSchema | utils/schemas.ts:16-27 | returns the data exactly when there are no issues; otherwise throws an `Error` whose message splits at "," into the keys of the failing paths, in order |
| Schemas.MessageListsPaths | utils/schemas.ts:22-23 | the joined message of non-empty, comma-free paths splits back into their keys |
| Schemas.ValidateRules | utils/schemas.ts:16-27 | accepted exactly when every rule of the schema holds; otherwise the message lists the keys of exactly the failing rules |
| Schemas.NestedMessageExample | utils/schemas.ts:22-23 | nested image paths print every key: size and name failures give "image,size,image,name" |
| Schemas.ValidateProfile | utils/schemas.ts:4-27 | a profile is accepted iff firstName, lastName and username are each at least 2 UTF-16 code units long; otherwise the message splits into exactly the short fields, once each, in field order |
| Schemas.ValidateImage | utils/schemas.ts:29-38 | an absent image is accepted; a present one iff size ≤ 1048576, type starts with "image/" and the name is non-empty (lastModified is free); otherwise the message lists "image" and each failing key |
| Strings.Utf16Length | utils/schemas.ts:5-13 | JavaScript `length`: at least one code unit per character and at most two, zero only for the empty string |
| Strings.Utf16LengthBmp | utils/schemas.ts:42-55 | a string without characters beyond the Basic Multilingual Plane is as long in code units as in characters |
| Strings.Utf16LengthExamples | utils/schemas.ts:5-7 | one emoji is two code units long, so it meets `.min(2)` on its own |
| Schemas.WordCount | utils/schemas.ts:61-65 | the word count of a description is its number of spaces plus one |
| Schemas.WordCountExamples | utils/schemas.ts:63 | "" counts one word and "a  b" counts three |
| Schemas.DescriptionBySpaces | utils/schemas.ts:61-69 | a description is accepted iff it has 9 to 999 spaces, i.e. 10 to 1000 words; 9 and 1001 words are rejected |
| Schemas.ValidatePropertyForm | utils/schemas.ts:40-84 | a property form is accepted iff name and tagline are 2..100 UTF-16 code units long, the description has 10..1000 words and price, guests, bedrooms, beds and baths are ≥ 0; otherwise the message splits into exactly the failing fields, once each, in field order |
| Schemas.FreeTextFields | utils/schemas.ts:60-83 | category, country and amenities accept any string: changing them never changes acceptance |
| Countries.FormattedCountries | utils/countries.ts:3-11 | same length and order as the dataset; entry i carries item i's code, common name, flag, location and region |
| Countries.FindCountryCode | utils/countries.ts:13-15 | a result has code c and is the first entry with code c; nothing is returned exactly when no entry has code c |
| Countries.FindInDataset | utils/countries.ts:3-15 | looking up c in the formatted list gives the formatted first dataset item with cca2 c, and nothing iff no item has cca2 c |
| Actions.RenderError | utils/actions.ts:22-26 | an `Error`'s own message, "An error occurred" for any other thrown value |
| Actions.Backend.GetAuthUser | utils/actions.ts:15-20 | no user: the "must be logged in" error; a user without the hasProfile flag: redirect to "/profile/create"; otherwise the user |
| Actions.Backend.UploadImage | utils/actions.ts:130 | the upload service is called with the file and its outcome is returned; no table changes |
| Actions.Backend.CreateProfileAction | utils/actions.ts:28-59 | no user, a rejected form, a user without e-mail or an existing profile returns `{message}` and changes nothing; otherwise exactly one profile with clerkId = user id and the validated names is written, the flag is set, and the result is a redirect to "/" |
| Actions.Backend.CreateProfileTwice | utils/actions.ts:39-58 | a second profile creation for the same identity fails with the unique-constraint message and leaves exactly the one profile the first creation wrote |
| Actions.Backend.FetchProfileImage | utils/actions.ts:61-73 | nothing without a user; otherwise the profile image of the user's profile, if any |
| Actions.Backend.FetchProfile | utils/actions.ts:75-82 | the getAuthUser outcomes; then the caller's profile, or a redirect to "/profile/create" when the table has none |
| Actions.Backend.UpdateProfileAction | utils/actions.ts:84-107 | auth failures escape untouched; a rejected form returns its message and writes nothing; otherwise only the three names of the caller's profile change, "/profile" is refreshed and the message is "update profile action" |
| Actions.Backend.UpdateProfileImageAction | utils/actions.ts:109-149 | auth failures escape; a missing or rejected file returns `{message}` without uploading; after a valid image the file is uploaded, and only on upload success is profileImage set to exactly the returned path |
| Actions.Backend.CreatePropertyAction | utils/actions.ts:151-187 | auth failures escape; upload only after the property and image schemas both pass; on upload success one row with the validated fields, image = uploaded path and profileId = user id is appended and the result redirects to "/"; every other failure returns `{message}` with no row and no redirect |
| Actions.Select | utils/actions.ts:196-203 | keeps each row exactly as often as the table holds it when the category is unset or equal and the search occurs case-insensitively in name or tagline; keeps nothing else |
| Actions.Insert | utils/actions.ts:212-214 | inserting into a newest-first sequence keeps it newest first and adds exactly the one row |
| Actions.SortNewestFirst | utils/actions.ts:212-214 | the result is ordered by createdAt descending and is a permutation of the input |
| Actions.SortKeepsTies | utils/actions.ts:212-214 | the sort is stable: the rows created at any one time appear in table order |
| Actions.Ranked | utils/actions.ts:196-215 | the selected rows, newest first, each matching row as often as in the table |
| Actions.FetchProperties | utils/actions.ts:189-217 | one summary per matching row of the table; each summary (id, name, image, tagline, country, price) is that of a row that matches the search and category, in newest-first order |
| Actions.FetchAllByDefault | utils/actions.ts:189-203 | with the default empty search and no category every row is listed |
| Actions.FetchByCategory | utils/actions.ts:197-202 | with a category every listed row has exactly that category, and every row of that category that matches the search is listed |
| Actions.CreatedPropertyListed | utils/actions.ts:175-216 | a row appended by property creation appears in the default listing with its own summary fields |

## Left out

- Numeric coercion (`z.coerce.number`), `NaN` and non-integer numbers: price and counts are already-parsed integers, so each field can fail only one rule.
- The regular-expression engine: `/^image\//` is a prefix test.
- zod's removal of unknown keys from `Object.fromEntries(formData)`: the forms are typed records holding only the schema's keys.
- Network failures of the identity provider and the database, including `updateUserMetadata` failing after the profile row is written: these services are external. The upload service's failure is modelled.
- Concurrent profile creation: the database's unique constraint is external. A sequential second creation is modelled as the database's unique-constraint error. Its text is abbreviated to the constraint sentence.
- Actions.Backend.UpdateProfileAction: requires the `Valid()` invariant. A flagged identity without a profile row therefore cannot occur, and the database's record-not-found error for that case is not modelled.
- Actions.Backend.UpdateProfileImageAction: requires `Valid()` for the same reason. Its `else throw new Error("Image validation failed")` branch is shown unreachable, because a validated payload built from a file always holds the image.
- Actions.Backend.CreatePropertyAction: the database's foreign-key check on `profileId` is not modelled. The `Valid()` invariant shows that the id always refers to an existing profile.
- The runtime `TypeError` texts (missing e-mail address, missing "image" entry) are modelled as constants with the V8 wording.
- `revalidatePath` and `redirect` as framework effects: they are outcome values only.
- Unicode case folding: "insensitive" matching lowercases ASCII letters only. The database's handling of `%` and `_` in the search text is not modelled.
- Rows with equal `createdAt`: the database leaves their order unspecified. The model keeps table order, as `Actions.SortKeepsTies` states.
- The property `id` and `createdAt` defaults and the file bytes: the id and the clock are parameters, and files carry only the metadata the schema reads.
- The `world-countries` dataset: it is an abstract input sequence whose entries are reduced to the projected fields.
- The presentational React files (`app/`, `components/`): they hold no rules beyond display.
