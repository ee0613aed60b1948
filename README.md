# Versioned key/value client for Vault, modelled in Dafny

This project models `VaultVersionedKeyValueTemplate`, Spring Vault's client for
the versioned key/value secrets engine of HashiCorp Vault (KV version 2), and
the default `read(path)` of the interface it implements,
`VaultVersionedKeyValueOperations`.

The template is bound to a mount path. It turns `list`, `read`, `write`,
`delete`, `undelete` and `destroy` into calls on a `VaultOperations`
collaborator, and it turns the JSON responses into `Versioned` secrets and
`Metadata` values. The model replaces every call on the collaborator with a
returned `Request` value (`ListKeys`, `Get`, `Write`, `Delete`). Every answer
the collaborator gives is a parameter: the HTTP outcome of a read, the reply to
a write, the JSON-unwrapping helper and the timestamp parser. The exceptions the
template throws or lets through become `Failure` values, and a `null` read
result becomes `Absent`.

Files and modules:

- `wrappers.dfy` (`Wrappers`): `Option` and `Result`.
- `text.dfy` (`Text`): `StringUtils.hasText` with Java's whitespace set,
  `String.contains`, and the `%d` conversion with a parser that inverts it.
- `support.dfy` (`VaultSupport`): JSON values, `Instant`, `Version`,
  `Metadata`, `Versioned`, `VaultResponse`, the failures and requests, and two
  classes that are changed in place. `MetadataBuilder` stands for
  `Metadata.MetadataBuilder`. `RequestMap` stands for the `LinkedHashMap` that
  holds a request body, and it holds nested maps by reference.
- `template.dfy` (`KeyValueTemplate`): the class `Template` with its constant
  mount path and every operation.
- `operations.dfy` (`KeyValueOperations`): the default `read(path)`.

What is proved:

- Backend paths can be parsed back. `Endpoint` splits a path below the mount
  into segment and secret path, and it inverts `createBackendPath`. So every
  operation's target is stated as the endpoint it reaches: `metadata` for
  `list`; `data` for `read`, `write` and `delete(path)`; and `delete`,
  `undelete` or `destroy` for the version operations.
- A versioned read URL is the data path, then `?version=`, then a text that
  parses back to the version number. An unversioned read URL is the data path
  alone. When the mount and the path hold no `?`, different versions give
  different URLs.
- `read` handles its outcome as follows. It yields `Absent` exactly for a 404
  without a deletion marker or an empty body. It fails with the secret path
  exactly for a status other than 404. A 404 with a deletion marker is decoded
  like a successful response.
- The write body holds `options.cas` exactly for a `Versioned` body. The
  options map is put into the body before its `cas` entry is. The proof of
  `Write` shows that the entry still reaches the request, because the map is
  held by reference.
- Metadata parsing works field by field. It succeeds exactly on well-formed
  maps. `deletedAt` is set exactly when `deletion_time` holds non-blank text.
  `destroyed` is true exactly for JSON `true`. The version comes from
  `version`, and `created_time` is required.
- `toVersionList` keeps the concrete versions in order and maps each to its
  number. It distributes over concatenation, and the sentinel contributes
  nothing wherever it stands. The `{versions: [...]}` body reads back the same
  list.

## Model

| member | source | states |
|---|---|---|
| `KeyValueTemplate.Template.constructor` | spring-vault-core/src/main/java/org/springframework/vault/core/VaultVersionedKeyValueTemplate.java:59-66 | the mount path must have text and is kept as given |
| `KeyValueTemplate.Template.EndpointSplits` | spring-vault-core/src/main/java/org/springframework/vault/core/VaultVersionedKeyValueTemplate.java:232-234 | `mount/segment/path` with a slash-free segment splits back into exactly that segment and path |
| `KeyValueTemplate.Template.BackendPath` | spring-vault-core/src/main/java/org/springframework/vault/core/VaultVersionedKeyValueTemplate.java:232-234 | `createBackendPath` gives a path below the mount that determines its segment and secret path, so the endpoints never collide |
| `KeyValueTemplate.Template.DataPath` | spring-vault-core/src/main/java/org/springframework/vault/core/VaultVersionedKeyValueTemplate.java:228-230 | `createDataPath` gives the `data` endpoint of the secret path |
| `KeyValueTemplate.Template.List` | spring-vault-core/src/main/java/org/springframework/vault/core/VaultVersionedKeyValueTemplate.java:68-72 | `list` asks the collaborator to list the `metadata` endpoint of the path, with no check on the path |
| `KeyValueTemplate.Template.ReadPath` | spring-vault-core/src/main/java/org/springframework/vault/core/VaultVersionedKeyValueTemplate.java:81-83 | the unversioned sentinel reads the plain data path; a concrete version n reads the data path, then `?version=`, then a text that parses back to n |
| `Text.FormatDecimalRoundTrip` | spring-vault-core/src/main/java/org/springframework/vault/core/VaultVersionedKeyValueTemplate.java:81-82 | the `%d` text of a version number consists of a sign and digits only and parses back to the number |
| `KeyValueTemplate.Template.QueryMarksVersion` | spring-vault-core/src/main/java/org/springframework/vault/core/VaultVersionedKeyValueTemplate.java:81-83 | when neither the mount nor the path holds a `?`, a read URL holds a `?` exactly when a concrete version is requested |
| `KeyValueTemplate.Template.ReadPathDistinguishesVersions` | spring-vault-core/src/main/java/org/springframework/vault/core/VaultVersionedKeyValueTemplate.java:81-83 | under the same condition, two versions that give the same read URL are the same version |
| `KeyValueTemplate.Template.Read` | spring-vault-core/src/main/java/org/springframework/vault/core/VaultVersionedKeyValueTemplate.java:74-113 | `read` sends one GET to the read path; the result is absent exactly for a 404 without `deletion_time` in its body or an empty response; it fails with the secret path and status exactly for a non-404 status; a 404 with the marker is decoded from the unwrapped body like a successful response |
| `KeyValueTemplate.Template.ReadOutcome` | spring-vault-core/src/main/java/org/springframework/vault/core/VaultVersionedKeyValueTemplate.java:85-107 | the response handler and null check of `read`: absent exactly for a 404 without `deletion_time` in its body or an empty response; a failure with the secret path and status exactly for a non-404 status; otherwise the decoded response, from the unwrapped body for a 404 with the marker |
| `KeyValueTemplate.Template.Decode` | spring-vault-core/src/main/java/org/springframework/vault/core/VaultVersionedKeyValueTemplate.java:105-112 | a response without data is a hard failure; the result is a secret exactly when `data.metadata` is a well-formed metadata map and `data.data` is a map, null or missing, and then it takes its metadata from `data.metadata` and its secret from `data.data`; a `data.data` of another kind is a cast failure; decoding never yields absence |
| `KeyValueTemplate.Template.ReadSoftDeleted` | spring-vault-core/src/main/java/org/springframework/vault/core/VaultVersionedKeyValueTemplate.java:92-96 | a 404 whose body carries the metadata of a soft-deleted version reads back as a secret with no data and with the deletion time set |
| `KeyValueTemplate.WritePayload` | spring-vault-core/src/main/java/org/springframework/vault/core/VaultVersionedKeyValueTemplate.java:120-134 | a write body holds the secret under `data`; it has an `options` key exactly when the body is `Versioned`, and then `options` is exactly `{cas: n}` with n the version number |
| `KeyValueTemplate.Template.Write` | spring-vault-core/src/main/java/org/springframework/vault/core/VaultVersionedKeyValueTemplate.java:115-139 | `write` sends that body to the `data` endpoint, even though the options map is filled after it is put into the body; the collaborator's exception passes through, a null reply or a reply without data fails, and otherwise the metadata is parsed from the reply's data |
| `KeyValueTemplate.Template.GetDate` | spring-vault-core/src/main/java/org/springframework/vault/core/VaultVersionedKeyValueTemplate.java:163-172 | a missing, null or blank timestamp field gives no instant; any other text gives its parsed instant or a parse failure naming the field and text; a value that is not text is a cast failure naming the field |
| `KeyValueTemplate.Template.IntegerField` | spring-vault-core/src/main/java/org/springframework/vault/core/VaultVersionedKeyValueTemplate.java:157-158 | the version field succeeds exactly when it holds a number within Java's `Integer` range, and then yields that number |
| `KeyValueTemplate.Template.ParseMetadata` | spring-vault-core/src/main/java/org/springframework/vault/core/VaultVersionedKeyValueTemplate.java:141-161 | metadata parses exactly when the map is well formed; `created_time` is required; `deletedAt` is set exactly when `deletion_time` holds non-blank text; `destroyed` is exactly JSON `true`; the version is the `version` number |
| `KeyValueTemplate.Template.GetMetadata` | spring-vault-core/src/main/java/org/springframework/vault/core/VaultVersionedKeyValueTemplate.java:141-161 | filling the metadata builder step by step yields exactly the parsed metadata, or the same failure |
| `KeyValueTemplate.Template.Delete` | spring-vault-core/src/main/java/org/springframework/vault/core/VaultVersionedKeyValueTemplate.java:174-180 | `delete(path)` sends a DELETE to the `data` endpoint, which removes only the latest version |
| `KeyValueTemplate.Template.DeleteVersions` | spring-vault-core/src/main/java/org/springframework/vault/core/VaultVersionedKeyValueTemplate.java:182-197 | an empty version list gives exactly the request of `delete(path)`; otherwise the `delete` endpoint receives a body whose only key is `versions` and which reads back as the version list |
| `KeyValueTemplate.Template.ToVersionList` | spring-vault-core/src/main/java/org/springframework/vault/core/VaultVersionedKeyValueTemplate.java:199-202 | the list is no longer than its input; every number comes from a concrete version in the input, and every concrete version's number is in it |
| `KeyValueTemplate.Template.ToVersionListConcat` | spring-vault-core/src/main/java/org/springframework/vault/core/VaultVersionedKeyValueTemplate.java:199-202 | the version list of a concatenation is the concatenation of the version lists, so the input's order is kept |
| `KeyValueTemplate.Template.DropsSentinel` | spring-vault-core/src/main/java/org/springframework/vault/core/VaultVersionedKeyValueTemplate.java:200 | the unversioned sentinel contributes nothing to the list, wherever it stands |
| `KeyValueTemplate.Template.ToVersionListOfConcrete` | spring-vault-core/src/main/java/org/springframework/vault/core/VaultVersionedKeyValueTemplate.java:200-201 | a list of concrete versions maps one to one, position by position, to their numbers |
| `KeyValueTemplate.VersionsRoundTrip` | spring-vault-core/src/main/java/org/springframework/vault/core/VaultVersionedKeyValueTemplate.java:195-196 | the `{versions: [...]}` body reads back as exactly the list it was built from |
| `KeyValueTemplate.Template.VersionsWrite` | spring-vault-core/src/main/java/org/springframework/vault/core/VaultVersionedKeyValueTemplate.java:195-196 | the shared write of `delete`, `undelete` and `destroy` goes to the given endpoint with a body whose only key is `versions`, reading back as the version list |
| `KeyValueTemplate.Template.Undelete` | spring-vault-core/src/main/java/org/springframework/vault/core/VaultVersionedKeyValueTemplate.java:204-214 | `undelete` writes a body whose only key is `versions`, reading back as the version list, to the `undelete` endpoint, sending an empty list as it is |
| `KeyValueTemplate.Template.Destroy` | spring-vault-core/src/main/java/org/springframework/vault/core/VaultVersionedKeyValueTemplate.java:216-226 | `destroy` writes a body whose only key is `versions`, reading back as the version list, to the `destroy` endpoint, sending an empty list as it is |
| `KeyValueOperations.ReadLatest` | spring-vault-core/src/main/java/org/springframework/vault/core/VaultVersionedKeyValueOperations.java:50-59 | `read(path)` is `read(path, unversioned)`: it reads the plain data path, with no `?` when neither the mount nor the path has one, and handles the outcome the same way |

## Left out

- HTTP transport, sessions and the `RestOperations` call are not modelled. The outcome of the GET, the reply to a write and the parsed listing are parameters or left to the caller.
- `VaultResponses.unwrap` is the parameter `unwrap`, which the model treats as total. Its own JSON parse errors are not modelled.
- `VaultResponses.buildException` is reduced to a value that holds the path and the status.
- ISO 8601 parsing and `Instant.from` are one parameter, `parse`, from text to an optional instant. `None` stands for `DateTimeParseException`.
- Exceptions other than an HTTP status error on the read call, such as I/O errors, are not modelled.
- Backend behaviour is not modelled: CAS rejection, version numbering, and the effect of delete, undelete and destroy. These happen on the Vault server, so round trips through the server, such as a write followed by a read, are out of reach.
- Null arguments are not modelled because Dafny values are never null. `Assert.notNull` and `Assert.noNullElements` hold by typing, and `Assert.hasText` is a `requires`.
- `Versioned.Version` is modelled only as the sentinel or a concrete number, with `isVersioned` true exactly for the latter and `Version.from(n)` a concrete `n`. The number the sentinel reports through `getVersion` is left unknown (`UnversionedNumber`). It appears only in the CAS field of a `Versioned` body that carries the sentinel.
- Key order in request bodies is not modelled. A `LinkedHashMap` keeps insertion order, but a request body is rendered as an unordered JSON object.
- JSON numbers are integers here. A number outside the `Integer` range stands for the `Long` that Jackson would produce, so casting it to `Integer` fails.
- `VaultResponse` is reduced to its `data` field.
- `%d` is assumed to write ASCII digits. Locale-specific digits are not modelled.
- KeyValueTemplate.Template.List: only the request is modelled. The listing is the collaborator's answer and is returned unchanged, `null` when the path does not exist.
- KeyValueTemplate.Template.Delete: only the request is modelled. The collaborator's reply is discarded and its exceptions pass through.
- KeyValueTemplate.Template.DeleteVersions: only the request is modelled, for the same reason as `Delete`.
- KeyValueTemplate.Template.Undelete: only the request is modelled, for the same reason as `Delete`.
- KeyValueTemplate.Template.Destroy: only the request is modelled, for the same reason as `Delete`.

Where the interface's documentation and the template's code differ, the model
follows the code:

- The interface documents the version arrays of `delete`, `undelete` and `destroy` as "must not be null or empty". The template accepts an empty array. `delete` falls back to deleting the latest version, and `undelete` and `destroy` send an empty list. So no `requires` rules out an empty list.
- The exception for a status other than 404 is built from the secret path passed to `read`, not from the full request URL.
- `list` does not check its path, so `List` has no `requires`.
