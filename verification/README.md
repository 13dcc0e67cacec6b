# Prometheus.ServiceModel.Common — error responses and identity claims

A Dafny model of the deterministic core of the service host's common controller layer:

- **Error-response helpers** (`ControllerExtensions`): each helper turns a failure kind and
  optional context (a parameter name, an object type, an object key, the request's model
  state, a caught exception) into an HTTP result — status 400 (bad request), or 500 for
  `FatalServerError` — whose body is a `BusinessError` carrying a message, a numeric error
  code and a fatal flag. Messages degrade to generic phrasing when a name, type or key is
  null or empty; C# `null` strings are `Option<string>`, and `None` and `Some("")` are treated
  alike, as `string.IsNullOrEmpty` does.
- **Error-code table** (`ErrorCodes`): the seven integer constants, including the deliberate
  alias `GeneralError == ModelStateError == 41000`.
- **Identity introspection** (`IdentityInformationController`, `Model`): `GetAllClaims`
  projects every claim of the request's user to a `(Type, Value)` DTO; `GetRoles` picks the
  role claim type and keeps only the claims of that type. The LINQ `Select` and `Where` they
  use are modelled in `Sequences` as order-preserving map and filter.

Two behaviours of the code are modelled as written:

- The `Type`-typed overloads of `ObjectAlreadyExistsError` and `ObjectNotFoundError` pass
  `nameof(objectType)`, the literal `"objectType"`, so the type argument never reaches the
  message (`ForTypeOverloadsIgnoreType`, `ForTypeDiffersFromGeneric`).
- `GetRoles` returns `DTOIdentityClaim` values, although its response attribute and doc comment
  describe a collection of strings.

`FatalServerError` always attaches its body; withholding the body in production-like
environments is a decision of the calling controllers, not of these helpers.

The `BusinessError` body records what each call site passes: which factory was used
(`FromMessage` with its text, or `FromException` with the exception), the error code passed
(`None` where the call site passes none), the fatal flag, and the entries the helper itself
adds to the body's `ErrorInfo` dictionary (`addedInfo`).

## Model

| member | source | states |
|---|---|---|
| ErrorCodes.GeneralAndModelStateAlias | Prometheus.ServiceModel.Common/ErrorCodes.cs:12-16 | GeneralError and ModelStateError are both 41000 |
| ErrorCodes.CodesInRange | Prometheus.ServiceModel.Common/ErrorCodes.cs:12-41 | every code lies in [41000, 42510] |
| ErrorCodes.CodesDistinctExceptAlias | Prometheus.ServiceModel.Common/ErrorCodes.cs:12-41 | two of the seven codes are equal exactly when they are the GeneralError/ModelStateError pair |
| ControllerExtensions.TryAdd | Prometheus.ServiceModel.Common/ControllerExtensions.cs:28 | the key is present afterwards; an existing entry is kept, otherwise the new value is stored; no other entry changes |
| ControllerExtensions.ModelStateMessages | Prometheus.ServiceModel.Common/ControllerExtensions.cs:21-23 | the flattened list has one entry per (key, error) pair |
| ControllerExtensions.ModelStateMessageAt | Prometheus.ServiceModel.Common/ControllerExtensions.cs:21-23 | the entry at position (errors of earlier keys) + j is "key: error j" of that key |
| ControllerExtensions.ModelStateMessageSource | Prometheus.ServiceModel.Common/ControllerExtensions.cs:21-23 | every entry lies in the block of some key |
| ControllerExtensions.ModelStateBlocksDisjoint | Prometheus.ServiceModel.Common/ControllerExtensions.cs:21-23 | the blocks of different keys do not overlap, so each entry comes from exactly one key |
| ControllerExtensions.ErrorsBeforeOrdered | Prometheus.ServiceModel.Common/ControllerExtensions.cs:21-23 | all entries of a key precede all entries of every later key |
| ControllerExtensions.ModelStateMessagesAppend | Prometheus.ServiceModel.Common/ControllerExtensions.cs:21-23 | flattening two parts of a model state is flattening each and concatenating |
| ControllerExtensions.ModelStateError | Prometheus.ServiceModel.Common/ControllerExtensions.cs:18-31 | status 400, message "Request model state is invalid", code ModelStateError, not fatal, and "errorMessages" holds the flattened messages |
| ControllerExtensions.GeneralErrorFromException | Prometheus.ServiceModel.Common/ControllerExtensions.cs:37-45 | status 400, body built from the exception, code GeneralError, not fatal, nothing added to ErrorInfo |
| ControllerExtensions.GeneralErrorFromMessage | Prometheus.ServiceModel.Common/ControllerExtensions.cs:51-59 | status 400, the caller's message passed through, code GeneralError, not fatal, nothing added to ErrorInfo |
| ControllerExtensions.GeneralErrorDefaultMessage | Prometheus.ServiceModel.Common/ControllerExtensions.cs:51 | without an argument the message is "General error." |
| ControllerExtensions.InvalidParameterError | Prometheus.ServiceModel.Common/ControllerExtensions.cs:65-75 | status 400, code ArgumentInvalidError; "Invalid request parameter." for a null or empty name, else "Request parameter '<name>' is invalid." |
| ControllerExtensions.InvalidParameterNameRecoverable | Prometheus.ServiceModel.Common/ControllerExtensions.cs:69-71 | the parameter name can be read back from the message exactly when one was given |
| ControllerExtensions.ParameterNameInRoundTrip | Prometheus.ServiceModel.Common/ControllerExtensions.cs:71 | any name rendered as "Request parameter '<name><tail>" is read back unchanged |
| ControllerExtensions.MissingParameterError | Prometheus.ServiceModel.Common/ControllerExtensions.cs:81-91 | status 400, code ArgumentMissingError; "A required request parameter is missing." for a null or empty name, else "Request parameter '<name>' is missing." |
| ControllerExtensions.MissingParameterNameRecoverable | Prometheus.ServiceModel.Common/ControllerExtensions.cs:85-87 | the parameter name can be read back from the message exactly when one was given |
| ControllerExtensions.ObjectPrefix | Prometheus.ServiceModel.Common/ControllerExtensions.cs:102 | the prefix is "Object" for a null or empty type, else the type, and never empty |
| ControllerExtensions.ObjectAlreadyExistsError | Prometheus.ServiceModel.Common/ControllerExtensions.cs:98-122 | status 400, code ObjectAlreadyExistsError; "<prefix> already exists." without a key, "<prefix> with key '<key>' already exists." with one |
| ControllerExtensions.ObjectNotFoundError | Prometheus.ServiceModel.Common/ControllerExtensions.cs:154-178 | status 400, code ObjectNotFoundError; "<prefix> not found." without a key, "<prefix> with key '<key>' not found." with one |
| ControllerExtensions.ObjectMessageKeyRecoverable | Prometheus.ServiceModel.Common/ControllerExtensions.cs:104-121 | for a fixed type, two object messages are equal exactly when the keys render alike (null and empty alike) |
| ControllerExtensions.ObjectMessageTypeRecoverable | Prometheus.ServiceModel.Common/ControllerExtensions.cs:102-121 | for a fixed key, two object messages are equal exactly when their prefixes are |
| ControllerExtensions.ObjectMessageTypeKeyAmbiguous | Prometheus.ServiceModel.Common/ControllerExtensions.cs:108-117 | type and key together are not always recoverable: a type named like a keyed message collides with a short type plus a key |
| ControllerExtensions.KeylessObjectMessageHasNoWithKey | Prometheus.ServiceModel.Common/ControllerExtensions.cs:104-111 | with a null or empty key the message contains no "with key" unless the type name does |
| ControllerExtensions.KeyedObjectMessageHasWithKey | Prometheus.ServiceModel.Common/ControllerExtensions.cs:113-121 | with a key the message always contains "with key" |
| ControllerExtensions.ObjectAlreadyExistsErrorForType | Prometheus.ServiceModel.Common/ControllerExtensions.cs:129-136 | status 400, code ObjectAlreadyExistsError, not fatal, nothing added to ErrorInfo; the message is the string overload's with the literal prefix "objectType", key fallback and " already exists." tail |
| ControllerExtensions.ObjectNotFoundErrorForType | Prometheus.ServiceModel.Common/ControllerExtensions.cs:185-192 | status 400, code ObjectNotFoundError, not fatal, nothing added to ErrorInfo; the message is the string overload's with the literal prefix "objectType", key fallback and " not found." tail |
| ControllerExtensions.ForTypeOverloadsIgnoreType | Prometheus.ServiceModel.Common/ControllerExtensions.cs:133-135 | the Type-typed overloads give the same result whatever type is passed |
| ControllerExtensions.ForTypeDiffersFromGeneric | Prometheus.ServiceModel.Common/ControllerExtensions.cs:191 | for any type not named "objectType", the Type-typed overload answers differently from the generic one |
| ControllerExtensions.ObjectAlreadyExistsErrorOf | Prometheus.ServiceModel.Common/ControllerExtensions.cs:143-147 | status 400, code ObjectAlreadyExistsError, not fatal, nothing added to ErrorInfo; the message is the string overload's with the type argument's name as prefix |
| ControllerExtensions.ObjectNotFoundErrorOf | Prometheus.ServiceModel.Common/ControllerExtensions.cs:199-203 | status 400, code ObjectNotFoundError, not fatal, nothing added to ErrorInfo; the message is the string overload's with the type argument's name as prefix |
| ControllerExtensions.FatalServerError | Prometheus.ServiceModel.Common/ControllerExtensions.cs:209-214 | status 500, body built from the exception, flagged fatal, no code passed, nothing added to ErrorInfo |
| ControllerExtensions.OnlyFatalServerErrorIs500 | Prometheus.ServiceModel.Common/ControllerExtensions.cs:209-213 | over all helpers: status 500 exactly for FatalServerError, 400 for every other, and the fatal flag exactly when 500 |
| ControllerExtensions.HelpersPassDocumentedCodes | Prometheus.ServiceModel.Common/ControllerExtensions.cs:13-203 | every helper passes the error code its documentation names |
| Sequences.Select | Prometheus.ServiceModel.Common/IdentityInformationController.cs:36-37 | one result per element, in order, each the projection of its element |
| Sequences.Where | Prometheus.ServiceModel.Common/IdentityInformationController.cs:65 | every element satisfying the predicate occurs as often as in the input, every other element not at all; never longer than the input |
| Sequences.WhereAppend | Prometheus.ServiceModel.Common/IdentityInformationController.cs:65 | filtering a concatenation is the concatenation of the filtered parts |
| Sequences.WhereIsSubsequence | Prometheus.ServiceModel.Common/IdentityInformationController.cs:65 | the filtered sequence is a subsequence of the input (order preserved) |
| Sequences.WhereIdempotent | Prometheus.ServiceModel.Common/IdentityInformationController.cs:65 | filtering twice by the same predicate equals filtering once |
| Sequences.SelectWhereCommute | Prometheus.ServiceModel.Common/IdentityInformationController.cs:64-67 | filter-then-project equals project-then-filter when the two filters agree through the projection |
| Model.FromClaim | Prometheus.ServiceModel.Common/Model/DTOIdentityClaim.cs:24-31 | the DTO's Type and Value are the claim's Type and Value |
| Model.FromClaimReadsOnlyTypeAndValue | Prometheus.ServiceModel.Common/Model/DTOIdentityClaim.cs:13-31 | two claims give equal DTOs exactly when their Type and Value agree; issuer and other claim data are dropped |
| IdentityInformationController.RoleClaimType | Prometheus.ServiceModel.Common/IdentityInformationController.cs:60-62 | the identity's RoleClaimType when it is a ClaimsIdentity, else the default role claim type |
| IdentityInformationController.GetAllClaims | Prometheus.ServiceModel.Common/IdentityInformationController.cs:33-39 | one DTO per claim, in the same order, each with its claim's Type and Value |
| IdentityInformationController.GetRoles | Prometheus.ServiceModel.Common/IdentityInformationController.cs:58-68 | only DTOs of the role type, every claim of the role type present, no more than the claim count |
| IdentityInformationController.GetRolesFiltersGetAllClaims | Prometheus.ServiceModel.Common/IdentityInformationController.cs:64-67 | GetRoles is GetAllClaims filtered by ordinal equality with the role claim type |
| IdentityInformationController.GetRolesSubsequenceOfGetAllClaims | Prometheus.ServiceModel.Common/IdentityInformationController.cs:64-67 | GetRoles is a subsequence of GetAllClaims and not longer |
| IdentityInformationController.GetRolesCounts | Prometheus.ServiceModel.Common/IdentityInformationController.cs:64-67 | a DTO of the role type occurs in GetRoles as often as in GetAllClaims, any other DTO never |
| IdentityInformationController.GetRolesMembership | Prometheus.ServiceModel.Common/IdentityInformationController.cs:65 | a DTO is a role exactly when it is among all claims and has the role type |

## Left out

- `BusinessError.FromMessage` and `FromException` live in Prometheus.Core.Model, which is not part of this model: the model records only the arguments each call site passes, not the message `FromException` derives, the initial contents of `ErrorInfo`, the code a body gets when none is passed, or any exception detail attached.
- ControllerExtensions.ModelStateError: `addedInfo` holds only the entry the helper adds with `TryAdd`, applied to an empty map; whether the factory pre-fills an "errorMessages" entry (which would make `TryAdd` keep it) is outside the model.
- ASP.NET MVC machinery (`BadRequest`, `StatusCode`, `Ok`, JSON serialisation, routing, `[Authorize]` policies, the 401/403 answers): results are reduced to a status code and a body; the identity endpoints' `Ok` (200) wrapper is not modelled, only the sequences they return.
- LINQ's lazy enumeration: `Select`, `Where` and `SelectMany` are modelled on finite, eagerly built sequences.
- Null exceptions passed to `GeneralError(Exception)` and `FatalServerError`, and null claim types: the source documents the exception as required and `Claim` rejects a null type, so both are modelled as non-null values.
- Model-state error messages are modelled as non-null strings, as ASP.NET stores an empty string for a missing message.
- `ErrorCodes.SystemObjectError` is declared but no helper uses it.
- MaintenanceRuntimeHealthController.cs, PublicHealthController.cs and the property-bag DTOs (DTOHealthSnapshot.cs, DTOPublicServiceInfo.cs, DTOLogFile.cs): process and environment I/O, a foreign service-registration call and plain data holders.
