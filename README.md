# Catalog API core: a Dafny model

This project models the logic that a small product/category catalog API writes itself, on top of
its web framework and its database client:

- **Response envelope.** `ApiResponse` is a five-field record: `success`, `message`, `data`, `error` and `meta`.
  It has two factories:
  - `success` has the default message "Success" and sets `error` to `null`.
  - `error` has the default message "Error" and leaves `data` undefined.
- **Response interceptor.** It sends an envelope unchanged and wraps every other handler result with `success`.
- **Controllers.** The `/categories` and `/products` controllers turn what their services produce into replies:
  - an absent record becomes a `NotFoundException`;
  - a storage error with code `P2025` becomes a `NotFoundException`;
  - any other error is rethrown unchanged;
  - a delete answers with `data: null`;
  - listing a category's products first checks that the category exists.
- **Pagination object.** Its defaults are page 1 and limit 10. `skip = (page - 1) * limit`, and a `null` field falls back to its default.
- **Request bodies.** The class-validator decorators on the create/update/delete DTOs are checked by the global
  validation pipe. The pipe's `whitelist` and `forbidNonWhitelisted` options refuse undeclared keys.

Everything is pure: datatypes, functions and lemmas.

- **Values.** `Values.Value` is a JavaScript value: undefined, null, boolean, number, string, array, object, or an
  `ApiResponse` instance. Because an envelope is itself one kind of value, `x instanceof ApiResponse` is `x.Response?`.
  The envelope's own constructor is the datatype constructor `Values.ApiResponse`.
- **Services.** Each service method is a single database call. A `Service` is therefore an arbitrary function from the
  call made to its outcome: resolved with a value, or rejected with an error object. Every controller property
  holds for every service.
- **Controller methods.** Each returns its reply together with the sequence of service calls it made, so "the product
  listing is never called for a missing category" can be stated.
- **DTOs.** Each DTO's decorators are written down as data (`Rules`) and interpreted by `Validation.Violations`,
  which follows class-validator's rules:
  - `IsOptional` skips `null`/`undefined`;
  - `{ each: true }` checks array elements;
  - undeclared keys are forbidden.

  Each DTO also has a hand-written field-by-field predicate `Valid`, and a lemma proves the two agree.

Facts about the code that the model follows:

- The category and product listings are not paginated and carry no `meta`: the services call `findMany` with no
  paging. Some tests expect paging, and the model follows the code instead:
  - `src/products/categories.service.spec.ts:120-124` expects `findMany` to be called with `skip`/`take`/`orderBy`.
  - `test/products/categories.controller.spec.ts:112` and `test/products/products.controller.spec.ts:122,128`
    expect `findAll(pagination)`, but both controllers' `findAll` take no argument.
  - `test/products/categories.controller.spec.ts:203,210` expect `findProductsByCategory(categoryId, pagination)`, but
    the controller's method takes only the id (`src/products/categories.controller.ts:49`).
- The controllers, not the services, turn a `P2025` storage error into not-found.
- The controllers turn a `findOne` lookup that yields nothing into a not-found error.
- A product's `stock` must be a number of at least 0; no decorator requires it to be an integer.
- The product update body declares neither `categoryId` nor `group_item`, so an update carrying them is refused.
- The interceptor passes an envelope through unchanged; `ApiResponse.success` itself wraps whatever it is given.

## Model

| member | source | states |
|---|---|---|
| `ApiResponses.ConstructorKeepsArguments` | src/common/response/api-response.ts:8-14 | the constructor stores its five arguments unchanged in the five fields |
| `ApiResponses.Success` | src/common/response/api-response.ts:16-18 | `success` gives `success = true`, `error = null`, keeps `data` and `meta`, and has the message "Success" when none is given |
| `ApiResponses.Error` | src/common/response/api-response.ts:20-22 | `error` gives `success = false`, no `data`, keeps the error detail and `meta`, and has the message "Error" when none is given |
| `ApiResponses.SuccessRange` | src/common/response/api-response.ts:16-18 | an envelope comes from `success` exactly when it has `success = true` and `error = null`; it is rebuilt from its own fields |
| `ApiResponses.ErrorRange` | src/common/response/api-response.ts:20-22 | an envelope comes from `error` exactly when it has `success = false` and no `data`; it is rebuilt from its own fields |
| `ApiResponses.SuccessAndErrorDisjoint` | src/common/response/api-response.ts:16-22 | no envelope is produced by both factories |
| `ApiResponses.SuccessInjective` | src/common/response/api-response.ts:16-18 | a success envelope determines its data, message and meta |
| `TransformInterceptor.Transform` | src/common/interceptors/transform.interceptor.ts:10-18 | an envelope is returned unchanged; any other value `x` becomes a success envelope with message "Success", `data = x`, `error = null` and no meta |
| `TransformInterceptor.TransformIdempotent` | src/common/interceptors/transform.interceptor.ts:12-17 | transforming a transformed value changes nothing |
| `TransformInterceptor.ErrorEnvelopeNotRewrapped` | src/common/interceptors/transform.interceptor.ts:12-14 | an error envelope passes through as it is and is never turned into a success |
| `TransformInterceptor.FixedPointsAreEnvelopes` | src/common/interceptors/transform.interceptor.ts:12-17 | a value passes through unchanged if and only if it already is an envelope |
| `TransformInterceptor.TransformInjectiveOnPlainValues` | src/common/interceptors/transform.interceptor.ts:17 | distinct plain values give distinct envelopes, and `data` gives the value back |
| `Values.Falsy` | src/products/categories.controller.ts:38 | the test behind `if (!category)` (also at line 51, and `if (!product)` at products.controller.ts:38): `undefined`, `null`, `false`, `0` and the empty text are falsy, every object is truthy |
| `Service.CatchRecordNotFound` | src/products/categories.controller.ts:72-77 | an error is turned into not-found exactly when its `code` is "P2025"; otherwise it is rethrown unchanged |
| `CategoriesController.Create` | src/products/categories.controller.ts:18-21 | one `create` call; the created category is returned as `data` under "Category created successfully"; a service error passes through |
| `CategoriesController.FindAll` | src/products/categories.controller.ts:26-29 | one `findAll` call; its result is `data`, unchanged, under "Categories retrieved successfully" |
| `CategoriesController.FindOne` | src/products/categories.controller.ts:36-42 | not found "Category not found" exactly when the lookup yields a falsy value; otherwise that category is `data` |
| `CategoriesController.FindProductsByCategory` | src/products/categories.controller.ts:49-56 | the calls are exactly the category lookup, followed by the product listing only when the category exists; the message embeds the category's name |
| `CategoriesController.Update` | src/products/categories.controller.ts:65-78 | the updated category is `data`; a `P2025` error becomes "Category not found"; any other error is rethrown unchanged |
| `CategoriesController.Remove` | src/products/categories.controller.ts:85-95 | on success `data` is `null` under "Category deleted successfully"; `P2025` becomes not found; other errors are rethrown |
| `CategoriesController.ProductsMessage` | src/products/categories.controller.ts:55 | the message is the fixed opening text, the category name verbatim, then the fixed closing text |
| `CategoriesController.ProductsMessageNamesCategory` | src/products/categories.controller.ts:55 | the products message identifies the category name: two messages are equal exactly when the names are |
| `CategoriesController.ProductsLookupGuardedLikeFindOne` | src/products/categories.controller.ts:36-56 | listing a category's products is not found exactly when looking the category up is, and fails the same way when the lookup fails |
| `CategoriesController.UpdateAndRemoveCatchAlike` | src/products/categories.controller.ts:69-94 | `update` and `remove` translate the same rejection into the same reply |
| `CategoriesController.RepliesAreFinalSuccessEnvelopes` | src/products/categories.controller.ts:18-95 | every envelope the controller returns is a success envelope, sent unchanged by the interceptor |
| `ProductsController.Create` | src/products/products.controller.ts:18-21 | one `create` call; the created product is `data` under "Product created successfully"; a service error passes through |
| `ProductsController.FindAll` | src/products/products.controller.ts:26-29 | one `findAll` call; its result is `data`, unchanged, under "Products retrieved successfully" |
| `ProductsController.FindOne` | src/products/products.controller.ts:36-42 | not found "Product not found" exactly when the lookup yields a falsy value; otherwise that product is `data` |
| `ProductsController.Update` | src/products/products.controller.ts:51-64 | the updated product is `data` under "Product updated successfully"; `P2025` becomes not found; other errors are rethrown unchanged |
| `ProductsController.Remove` | src/products/products.controller.ts:71-81 | on success `data` is `null` under "Product deleted successfully"; `P2025` becomes not found; other errors are rethrown |
| `ProductsController.NotFoundHasACause` | src/products/products.controller.ts:36-80 | not found is answered only for an absent product or a `P2025` error |
| `ProductsController.RepliesAreFinalSuccessEnvelopes` | src/products/products.controller.ts:18-81 | every envelope the controller returns is a success envelope, sent unchanged by the interceptor |
| `Pagination.Fresh` | src/common/dto/pagination.dto.spec.ts:6-9 | `new PaginationDto()` holds page 1 and limit 10 |
| `Pagination.Page` | src/common/dto/pagination.dto.spec.ts:37-45 | the page in effect is the assigned one (at least 1), or 1 when the field is `null`/`undefined` |
| `Pagination.Limit` | src/common/dto/pagination.dto.spec.ts:37-45 | the limit in effect is the assigned one (at least 1), or 10 when the field is `null`/`undefined` |
| `Pagination.Skip` | src/common/dto/pagination.dto.spec.ts:22-35 | `skip` is a whole number of pages: divisible by the limit, with quotient `page - 1` |
| `Pagination.SkipWindowIsThePage` | src/common/dto/pagination.dto.spec.ts:29-35 | record position `i` is in `[skip, skip + limit)` if and only if it is listed on the requested page |
| `Pagination.NextPageFollows` | src/common/dto/pagination.dto.spec.ts:29-35 | the next page starts exactly `limit` records later |
| `Pagination.DefaultsWhenNothingSupplied` | src/common/dto/pagination.dto.spec.ts:5-27 | with nothing supplied, page is 1, limit is 10 and skip is 0 |
| `Pagination.SuppliedValuesKept` | src/common/dto/pagination.dto.spec.ts:12-19 | an assigned page and limit of at least 1 are the values in effect |
| `Pagination.SkipOfThirdPage` | src/common/dto/pagination.dto.spec.ts:29-35 | page 3 with limit 15 skips 30 records |
| `Pagination.NullFieldsFallBack` | src/common/dto/pagination.dto.spec.ts:37-45 | `null` page and limit fall back to the defaults, so skip is 0 |
| `Validation.Violations` | src/main.ts:10-14 | every reported error names a declared property whose value the named decorator rejects |
| `Validation.FailuresSound` | src/main.ts:10-14 | every failure reported for a property names one of its own decorators that rejects the value |
| `Validation.ViolationsSound` | src/main.ts:10-14 | every reported error names a declared property that `IsOptional` does not skip, and one of that property's own decorators that rejects its value |
| `Validation.FailuresComplete` | src/main.ts:10-14 | within one property, every decorator that rejects the value is reported |
| `Validation.ViolationsComplete` | src/main.ts:10-14 | the pipe does not stop at the first error: every decorator that rejects the value of a property it does not skip is reported |
| `Validation.AcceptsIff` | src/main.ts:10-14 | the pipe accepts a body exactly when it carries only declared keys and every property's decorators hold (or an optional one is null/undefined) |
| `CreateProductDto.Valid` | src/products/dto/create-product.dto.ts:4-69 | a field-by-field reading of the decorators, which `Rules` transcribes property by property: non-empty text name, price at least 0, optional stock at least 0, optional texts, optional numeric category, no other key |
| `CreateProductDto.RulesAcceptExactlyValid` | src/products/dto/create-product.dto.ts:4-69 | the decorators accept exactly the bodies with a non-empty name, a price of at least 0, an optional stock of at least 0, optional texts, an optional numeric category, and no other key |
| `CreateProductDto.AcceptedBodyFields` | src/products/dto/create-product.dto.ts:9-68 | an accepted body has a non-empty text name and a price of at least 0; optional fields, when given, have their declared types and bounds |
| `CreateProductDto.UndeclaredKeyRejected` | src/products/dto/create-product.dto.ts:4-69 | any key outside the seven declared ones is refused (the pipe's `forbidNonWhitelisted`) |
| `CreateProductDto.OptionalFieldsMayBeOmitted` | src/products/dto/create-product.dto.ts:18-68 | description, stock, image_url, categoryId and group_item may be left out of an accepted body |
| `CreateProductDto.NameAndPriceSuffice` | src/products/dto/create-product.dto.ts:9-30 | a non-empty name and a price of at least 0 alone are accepted |
| `UpdateProductDto.Valid` | src/products/dto/update-product.dto.ts:4-54 | a field-by-field reading of the decorators, which `Rules` transcribes: every field optional, texts are texts, price and stock at least 0, only the five declared keys |
| `UpdateProductDto.RulesAcceptExactlyValid` | src/products/dto/update-product.dto.ts:4-54 | the decorators accept exactly the bodies whose fields are all optional, texts are texts, price and stock are at least 0, and no other key is present |
| `UpdateProductDto.EmptyUpdateAccepted` | src/products/dto/update-product.dto.ts:10-52 | the empty update is accepted |
| `UpdateProductDto.AcceptedBodyFields` | src/products/dto/update-product.dto.ts:10-52 | price and stock, when given, are numbers of at least 0; name, description and image_url, when given, are texts |
| `UpdateProductDto.EmptyNameOnlyOnUpdate` | src/products/dto/update-product.dto.ts:10-12 | an empty name is accepted by an update but refused on creation |
| `UpdateProductDto.CategoryAndGroupRejected` | src/products/dto/update-product.dto.ts:4-54 | an update carrying `categoryId` or `group_item` is refused |
| `UpdateProductDto.CreationStricterOnSharedFields` | src/products/dto/update-product.dto.ts:4-54 | a creation body that carries only updatable keys is also a valid update |
| `CreateCategoryDto.Valid` | src/products/dto/create-category.dto.ts:4-21 | a field-by-field reading of the decorators, which `Rules` transcribes: non-empty text name, optional text description, no other key |
| `CreateCategoryDto.RulesAcceptExactlyValid` | src/products/dto/create-category.dto.ts:4-21 | the decorators accept exactly the bodies with a non-empty text name, an optional text description, and no other key |
| `CreateCategoryDto.AcceptedBodyFields` | src/products/dto/create-category.dto.ts:9-20 | an accepted body has a non-empty text name; a description, when given, is a text |
| `CreateCategoryDto.DescriptionOptional` | src/products/dto/create-category.dto.ts:18-20 | a name alone is accepted |
| `CreateCategoryDto.UndeclaredKeyRejected` | src/products/dto/create-category.dto.ts:4-21 | no key besides name and description is accepted |
| `DeleteManyDto.Valid` | src/products/dto/delete-product.dto.ts:4-11 | a reading of the decorators, which `Rules` transcribes: only `ids`, a non-empty array of integers of at least 1 |
| `DeleteManyDto.RulesAcceptExactlyValid` | src/products/dto/delete-product.dto.ts:4-11 | the decorators accept exactly a body whose only key `ids` is a non-empty array of integers of at least 1 |
| `DeleteManyDto.AcceptedIds` | src/products/dto/delete-product.dto.ts:5-10 | accepted ids form a non-empty array whose every element is an integer of at least 1 |
| `DeleteManyDto.MissingOrEmptyRejected` | src/products/dto/delete-product.dto.ts:5-6 | a missing or empty `ids` is refused |
| `DeleteManyDto.BadIdRejected` | src/products/dto/delete-product.dto.ts:8-9 | one element that is not a whole number of at least 1 refuses the whole list |
| `DeleteManyDto.TwoIdsAccepted` | src/products/dto/delete-product.dto.ts:5-10 | the list `[1, 2]` is accepted |

## Left out

- The category and product services are each a one-line delegation to the database client, so they are not modelled
  beyond the outcomes they can produce. Their tests that expect paging disagree with their code and are not followed.
- Batch deletion (`removeMany`) has no code here. Only the shape of its request body is modelled.
- The pagination object's own source file is not part of this model. Its behaviour is taken from its tests.
  - A supplied page or limit is a `Positive` integer (at least 1), the values the tests use. What the object does
    with an assigned 0 or a negative value is not pinned by its tests and is not modelled: such values cannot be
    written as a `PaginationDto` here.
  - The total-pages metadata has no code here.
- The update-category body (`update-category.dto.ts`) is not part of this model. The controllers pass every body to
  the service unchanged.
- `Values.Text`: converting a number to text is modelled only for integral numbers of magnitude below 1e21,
  which JavaScript writes as plain decimal digits. A non-integral number (floating-point printing) and an integral
  number of magnitude 1e21 or more (which JavaScript writes in exponent notation, as in `1e+21`) both render as
  the fixed text `<number>`. Only a category name that is not a string could reach these cases.
- `Values.Property`: only own properties of objects and envelopes are modelled. Built-in properties of strings and
  arrays are not. Reading a property of `null`/`undefined`, which throws, is not modelled either. The controllers
  read `name` only of a truthy value.
- A rejection is modelled as an error object with a `code`. Throwing a non-object (for which `error.code` would
  itself throw) is not modelled.
- Numbers are exact reals: NaN, infinities and `-0` are not values here.
  - For the same reason, `IsNumber` rejecting NaN and Infinity is not modelled.
  - The string-to-number coercion of `@Type(() => Number)` on `ids` is not modelled.
- Validation error messages, their order, and the pipe's other behaviour (`transform` of primitive parameters,
  nested objects) are not modelled. Only whether a body is accepted, and which decorators fail
  (`Validation.ViolationsSound` and `Validation.ViolationsComplete`), is modelled.
- Asynchronous execution, Observables, logging and timing, bootstrap, dependency injection, route and documentation
  decorators, `ParseIntPipe` (ids are already integers here), and the database connection lifecycle are not modelled.
