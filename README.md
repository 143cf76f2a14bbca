# helloworld-app core, modelled in Dafny

The helloworld-app is a small Next.js demo that lists short text "statuses"
with their authors. This project models its three pieces of plain logic and
proves properties about them:

- **Cache headers and time units** (`src/utils.ts`). `sec.fromMinutes`,
  `sec.fromHours` and `sec.fromDays` convert durations to seconds.
  `setSwrHeader` writes one response header:
  `Cache-Control: public, s-maxage=N, stale-while-revalidate=M`.
  `s-maxage` is defined in section 5.2.2.10 of RFC 9111, and
  `stale-while-revalidate` in section 3 of RFC 5861.
  Module `Utils` holds these. Module `NumberText` models how a template
  literal prints an integer.
- **In-memory GraphQL resolvers** (`graphql/resolvers.ts`). The
  `Query.statuses`, `Query.status`, `Query.banners` and `Status.author`
  resolvers look up three hardcoded arrays with `find` and `filter`. These
  are in module `Resolvers`. `Query.statuses` and `Query.banners` only
  forward to `listStatuses` and `listBanners`, so `ListStatuses` and
  `ListBanners` model them too.
- **REST status lookup** (`pages/api/status/getStatus.ts`). The handler finds
  the status whose id is `req.query.id`. It answers 200 with that status, or
  404 with `{message: 'not found'}`. This is module `StatusApi`.

Module `ArrayMethods` models `Array.prototype.find` and
`Array.prototype.filter` as functions over sequences. It also defines
`Option`, whose `None` stands for `undefined`.

Layout:

- `array_methods.dfy`: `Find`, `Filter` and their lemmas.
- `number_text.dfy`: printing integers in decimal and parsing them back.
- `utils.dfy`: the unit conversions, the Cache-Control value, and a
  `ServerResponse` class whose header map `SetSwrHeader` updates in place.
- `resolvers.dfy`: the data, the lookups and the resolvers.
- `status_api.dfy`: the lookup, the reply it selects, and an `ApiResponse`
  class whose status code and body `Handler` sets.

Three behaviours of the code are worth stating plainly:

- `Status.author` yields `undefined` for an unknown `authorId`; there is no
  fallback name. `AuthorOf` yields `None` in that case.
- The hardcoded banners have ids "2" and "1", both in group "1", so group
  "1" lists ids `["2", "1"]` and every other group lists none.
- `setSwrHeader` accepts any number for either window, not only positive
  ones. The model accepts any integer, and a negative integer is printed
  with a leading '-'.

## Model

| member | source | states |
|---|---|---|
| `Utils.FromMinutes` | v0.1.1/helloworld-app/src/utils.ts:16 | the result is a whole number of minutes' worth of seconds, and dividing by 60 gives back m |
| `Utils.FromHours` | v0.1.1/helloworld-app/src/utils.ts:17 | h hours are the seconds of 60·h minutes |
| `Utils.FromDays` | v0.1.1/helloworld-app/src/utils.ts:18 | d days are the seconds of 24·d hours |
| `Utils.ConversionsMonotone` | v0.1.1/helloworld-app/src/utils.ts:15-19 | each of the three conversions is monotone |
| `Utils.ConversionsKeepSign` | v0.1.1/helloworld-app/src/utils.ts:15-19 | each conversion maps 0, and only 0, to 0, maps non-negative inputs to non-negative results, and maps negative inputs to negative results |
| `NumberText.NatToText` | v0.1.1/helloworld-app/src/utils.ts:11 | a natural number prints as a non-empty string of digits, with a leading '0' only for 0 itself |
| `NumberText.NatTextRoundTrip` | v0.1.1/helloworld-app/src/utils.ts:11 | reading the printed digits of n gives back n |
| `NumberText.IntTextRoundTrip` | v0.1.1/helloworld-app/src/utils.ts:11 | parsing the text an integer is interpolated as gives back that integer |
| `NumberText.IntToTextInjective` | v0.1.1/helloworld-app/src/utils.ts:11 | different integers print as different text |
| `NumberText.IntToText` | v0.1.1/helloworld-app/src/utils.ts:11 | `${n}` for an integer is non-empty, holds only digits apart from a leading '-', starts with '-' exactly when n is negative, and has no leading zero (the only numeral starting with '0' is "0" itself) |
| `Utils.SwrDirectiveParts` | v0.1.1/helloworld-app/src/utils.ts:11 | the directive text is exactly `public, s-maxage=` + the decimal of N + `, stale-while-revalidate=` + the decimal of M |
| `Utils.SwrDirective` | v0.1.1/helloworld-app/src/utils.ts:11 | the template literal starts with `public, s-maxage=`, and both windows read back exactly from it |
| `Utils.TenMinutesThirtyDays` | v0.1.1/helloworld-app/src/utils.ts:9-18 | ten minutes and thirty days give `public, s-maxage=600, stale-while-revalidate=2592000` |
| `Utils.WithSwrHeader` | v0.1.1/helloworld-app/src/utils.ts:9-12 | after the write the header names are the old names plus `Cache-Control`, whose value reads back as the two windows |
| `Utils.SwrHeaderOnlyTouchesCacheControl` | v0.1.1/helloworld-app/src/utils.ts:9-12 | after the write, Cache-Control holds the directive and every other header is present or absent with the same value as before |
| `Utils.SwrHeaderIdempotent` | v0.1.1/helloworld-app/src/utils.ts:9-12 | writing the same directive twice leaves the same headers as writing it once |
| `Utils.ServerResponse.SetHeader` | v0.1.1/helloworld-app/src/utils.ts:9 | `res.setHeader` replaces the value under its name and changes no other header |
| `Utils.SetSwrHeader` | v0.1.1/helloworld-app/src/utils.ts:4-13 | the response's headers become the old headers with Cache-Control set to the directive, and the stored value parses back to the two windows |
| `ArrayMethods.Find` | v0.1.1/helloworld-app/graphql/resolvers.ts:25-26 | `find` yields nothing exactly when no element matches; otherwise it yields the element at the first matching index |
| `ArrayMethods.Filter` | v0.1.1/helloworld-app/graphql/resolvers.ts:31-32 | `filter` keeps only matching elements, keeps each matching element as often as it occurs, and the result is a subsequence of the input |
| `ArrayMethods.SubsequenceMember` | v0.1.1/helloworld-app/graphql/resolvers.ts:31-32 | every element of a subsequence is an element of the original sequence |
| `ArrayMethods.FilterAppend` | v0.1.1/helloworld-app/graphql/resolvers.ts:31-32 | filtering a concatenation concatenates the filtered parts, so the original order is kept |
| `ArrayMethods.FilterEmpty` | v0.1.1/helloworld-app/graphql/resolvers.ts:31-32 | `filter` returns the empty array exactly when no element matches |
| `ArrayMethods.FindIsFirstOfFilter` | v0.1.1/helloworld-app/graphql/resolvers.ts:25-32 | `find` yields the first element that `filter` with the same callback keeps, and nothing when `filter` keeps none |
| `Resolvers.ListStatuses` | v0.1.1/helloworld-app/graphql/resolvers.ts:23 | `listStatuses`, and so `Query.statuses`, returns every stored status in the stored order |
| `Resolvers.GetStatus` | v0.1.1/helloworld-app/graphql/resolvers.ts:25-26 | `getStatus(id)` is undefined exactly when no status has that id; otherwise it is a stored status with that id, and no earlier status has it |
| `Resolvers.GetAuthor` | v0.1.1/helloworld-app/graphql/resolvers.ts:28-29 | `getAuthor(id)` is undefined exactly when no author has that id; otherwise it is the first author with that id |
| `Resolvers.ListBanners` | v0.1.1/helloworld-app/graphql/resolvers.ts:31-32 | `listBanners(g)`, and so `Query.banners`, holds exactly the stored banners of group g, as a subsequence of the stored banners; it is empty exactly when no banner has group g |
| `Resolvers.QueryStatus` | v0.1.1/helloworld-app/graphql/resolvers.ts:9-11 | `Query.status` is null exactly when no status has the id; otherwise it is the status `getStatus` found, unchanged |
| `Resolvers.AuthorOf` | v0.1.1/helloworld-app/graphql/resolvers.ts:17-19 | `Status.author` is the first stored author whose id is the parent's `authorId`, and undefined exactly when no author has that id |
| `Resolvers.StatusIsFirstOfAllMatches` | v0.1.1/helloworld-app/graphql/resolvers.ts:25-26 | `getStatus(id)` is the first status that a filter by the same id keeps |
| `Resolvers.StatusOneOnFixedData` | v0.1.1/helloworld-app/graphql/resolvers.ts:36-57 | status '1' has body 'just setting up my app' and authorId '1', and its author is jack |
| `Resolvers.BannersOnFixedData` | v0.1.1/helloworld-app/graphql/resolvers.ts:64-75 | group '1' lists banner ids '2' then '1'; group '2' lists none |
| `StatusApi.IdMatches` | v0.1.1/helloworld-app/pages/api/status/getStatus.ts:4 | `status.id === req.query.id` fails when `id` is missing (`undefined`) or repeated (an array), and, for a single string value, holds exactly when that string equals the status id |
| `StatusApi.FindStatus` | v0.1.1/helloworld-app/pages/api/status/getStatus.ts:4 | the lookup finds nothing exactly when no status id strictly equals `req.query.id`; otherwise it finds the first status whose id does |
| `StatusApi.Respond` | v0.1.1/helloworld-app/pages/api/status/getStatus.ts:4-7 | the code is always 200 or 404; it is 200 exactly when some status id equals the query id, and then the body is the first such status; it is 404 exactly when the body is `{message: 'not found'}` |
| `StatusApi.ApiResponse.SetStatus` | v0.1.1/helloworld-app/pages/api/status/getStatus.ts:6-7 | `res.status(code)` sets the status code and leaves the sent body as it was |
| `StatusApi.ApiResponse.Json` | v0.1.1/helloworld-app/pages/api/status/getStatus.ts:6-7 | `res.json(body)` sends that body and leaves the status code as it was |
| `StatusApi.Handler` | v0.1.1/helloworld-app/pages/api/status/getStatus.ts:3-8 | the handler changes only `res`, and leaves it with the status code and body `Respond` selects |
| `StatusApi.NonStringIdNotFound` | v0.1.1/helloworld-app/pages/api/status/getStatus.ts:4 | a missing `id`, or an `id` given more than once (an array), gets 404 with `{message: 'not found'}` |
| `StatusApi.RepliesOnFixedData` | v0.1.1/helloworld-app/pages/api/status/getStatus.ts:26-39 | id '2' gets 200 with 'inviting coworkers' by jack; id '3' gets 404 with 'not found' |

## Left out

- JavaScript `number` semantics: `sec.*` and the template literal are modelled on mathematical integers. Fractions, NaN, infinities, exponent notation such as `1e+21`, and loss of precision above 2^53 are not modelled.
- Node's `setHeader` treats header names case-insensitively and throws once headers have been sent. The model keys headers by the exact name `Cache-Control` and has no "headers sent" state.
- `res.json` serialises its body to JSON; the model keeps the body as a value. In particular a `Date` is not turned into an ISO string.
- `createdAt` in `graphql/resolvers.ts` is `new Date(2021, m, d).toISOString()`, whose text depends on the process time zone. The model uses the text a process in the UTC time zone produces. In `getStatus.ts` a `Date` is kept as the three numbers it is built from. No date arithmetic is modelled.
- `Query.status` reads `args?.id`. The GraphQL schema declares `id` as a required `ID`, so the model takes the id as a string and does not model a missing `args` object.
- Query-string parsing by Next.js is not modelled: the request is given directly as a map from keys to one string or an array of strings.
- The hardcoded arrays are `const` bindings, which in JavaScript still allow the arrays themselves to be changed. The code never writes to them, so the model makes them Dafny constants and does not model writes to them.
- Apollo Server and client setup, the GraphQL schema file, the generated operation types and hooks, the page components and their network `fetch`, the Prisma seed script, and all UI components and theming are not part of this model. They are framework wiring, I/O or rendering.
- `pages/api/status/listStatuses.ts` returns a constant array with status 200, and `pages/index.tsx`'s `isStatuses` guard always returns `true`. Neither has logic beyond identity, so neither is modelled.
