# SayHi backend: credential store and photo store

This project models the two stateful parts of the SayHi photo backend
(the Spring application under `Backend/sayhi`) in Dafny and proves
properties of the model.

- **Credential store.** `UserService` allows a single account. It is
  modelled as the class `UserStore.UserService`, whose field `users`
  stands for the user repository. Signup succeeds only on an empty store.
  Login compares the name and password exactly. `AuthController`
  becomes `AuthApi.AuthController`. Each of its handlers returns a status
  and a body, and the signup handler updates the store through the
  service.
- **Photo store.** `PhotoService` is modelled as the class
  `PhotoStore.PhotoService`. Its photo table is a sequence of records
  kept in increasing id order, with the id the table assigns next. The
  files on disk are a set of paths, and a flag says whether the upload
  directory exists. An upload stores its file at
  `<upload dir>/<random token><extension>`, where the extension is the
  name's suffix from its last `.`. `PhotoController` becomes
  `PhotoApi.PhotoController`. It builds download URLs from record ids
  and maps service results to 200/404/500 responses.

The environment enters the model as parameters:
- **UUID.** A token the caller supplies. It has the 36-character length
  of a printed UUID and was never handed out before; the ghost set
  `usedTokens` tracks this.
- **Clock.** An `int` reading.
- **File-system failures.** An `Option<string>` (`None` = success,
  `Some(msg)` = an `IOException` with that message) or a `bool`.
- **Readability and URL construction.** A `bool` each, for whether a
  file can be read and whether turning its path into a URL fails.

Main results:
- The store never holds more than one account. On an empty store,
  every signup request with a missing field gets 400, the first complete
  one gets 201 and every later complete one gets 409. The service's
  name-collision guard can never fire.
- No two records share a stored file. Deleting a record leaves the files
  of all other records on disk.
- The table's look-up after a save or a delete changes only the affected
  id.
- Different ids give different download URLs, via a decimal round trip.

## Model

| member | source | states |
|---|---|---|
| Decimal.ParseRender | Backend/sayhi/src/main/java/com/example/sayhi/controller/PhotoController.java:38 | reading back the decimal text of an id, as string concatenation renders a `Long`, gives the id |
| Decimal.RenderInjective | Backend/sayhi/src/main/java/com/example/sayhi/controller/PhotoController.java:38 | different ids have different decimal texts |
| Decimal.Render | Backend/sayhi/src/main/java/com/example/sayhi/controller/PhotoController.java:38 | the decimal digits of a non-negative id, most significant first, no sign, a leading zero only for 0; ParseRender reads it back |
| UserStore.FindByUsername | Backend/sayhi/src/main/java/com/example/sayhi/service/UserService.java:17 | the look-up by name finds only a stored account with that name, and finds none exactly when no account has it |
| UserStore.ExistsByUsername | Backend/sayhi/src/main/java/com/example/sayhi/service/UserService.java:28 | the name-collision query holds exactly when the look-up by that name finds an account, and never on an empty store |
| UserStore.LoginAnswer | Backend/sayhi/src/main/java/com/example/sayhi/service/UserService.java:16-19 | on a store of at most one account, login is true iff that account is exactly (name, password); it is false on an empty store |
| UserStore.SignupAnswer | Backend/sayhi/src/main/java/com/example/sayhi/service/UserService.java:21-35 | signup succeeds iff the store is empty; then the store is exactly the new account; otherwise it is unchanged, so the name-collision guard is never what refuses |
| UserStore.SignupRunKeepsOneAccount | Backend/sayhi/src/main/java/com/example/sayhi/service/UserService.java:21-35 | any sequence of signups keeps at most one account; from empty, the store ends holding exactly the first request; a registered store never changes |
| UserStore.SignupThenLogin | Backend/sayhi/src/main/java/com/example/sayhi/service/UserService.java:16-34 | after a successful signup with (u, p), login(u, p) is true and login(u, q) for q ≠ p is false |
| UserStore.UserService.Login | Backend/sayhi/src/main/java/com/example/sayhi/service/UserService.java:16-19 | on a valid store the result is true iff (username, password) is the stored account; the store is not modified |
| UserStore.UserService.Signup | Backend/sayhi/src/main/java/com/example/sayhi/service/UserService.java:21-35 | succeeds iff the store was empty; the new store is what SignupAnswer gives (exactly the new account, or unchanged); keeps at most one account |
| UserStore.UserService.UserExists | Backend/sayhi/src/main/java/com/example/sayhi/service/UserService.java:37-39 | true iff the store holds an account; the store is not modified |
| AuthApi.SignupReply | Backend/sayhi/src/main/java/com/example/sayhi/controller/AuthController.java:44-72 | a missing field gives 400 "Username and password required"; a registered store gives 409 "User already exists. Only one user allowed."; both leave the store unchanged; on an empty store the reply is 201 "Signup successful" and the store holds exactly the new account, so "Signup failed" is unreachable |
| AuthApi.Complete | Backend/sayhi/src/main/java/com/example/sayhi/controller/AuthController.java:48 | the negation of the null-field check on the request body, shared by login (line 25) and signup (line 48): both username and password are present |
| AuthApi.SignupSessionWhenRegistered | Backend/sayhi/src/main/java/com/example/sayhi/controller/AuthController.java:48-59 | once an account exists, every complete signup request in a sequence gets 409 and every one with a missing field gets 400 |
| AuthApi.FirstSignupWins | Backend/sayhi/src/main/java/com/example/sayhi/controller/AuthController.java:48-66 | on an empty store, in any sequence of signup requests, each one with a missing field gets 400, the first complete one gets 201 and every later complete one gets 409 |
| AuthApi.AuthController.Login | Backend/sayhi/src/main/java/com/example/sayhi/controller/AuthController.java:21-42 | a missing field gives 400 "Username and password required"; otherwise 200 "Login successful" iff (username, password) is the stored account, else 401 "Invalid credentials" |
| AuthApi.AuthController.Signup | Backend/sayhi/src/main/java/com/example/sayhi/controller/AuthController.java:44-72 | the response and new store are those of SignupReply on the old store, and the store keeps at most one account |
| AuthApi.AuthController.CheckUserExists | Backend/sayhi/src/main/java/com/example/sayhi/controller/AuthController.java:74-79 | 200 with userExists true iff the store holds an account; nothing changes |
| PhotoStore.LastIndexOf | Backend/sayhi/src/main/java/com/example/sayhi/service/PhotoService.java:40 | the index of the last occurrence of the character, or -1 when it does not occur |
| PhotoStore.Extension | Backend/sayhi/src/main/java/com/example/sayhi/service/PhotoService.java:39-40 | none exactly when the name has no dot (where the substring call throws); otherwise a suffix of the name that starts with its only dot |
| PhotoStore.Resolve | Backend/sayhi/src/main/java/com/example/sayhi/service/PhotoService.java:44 | the upload directory's path joined with the file name: the directory, a separator, then the name, which can be read back from the end |
| PhotoStore.StoredPath | Backend/sayhi/src/main/java/com/example/sayhi/service/PhotoService.java:41-44 | the stored file's path: the random token followed by the extension, resolved in the upload directory; the token can be read back at its position, which StoredPathInjective uses |
| PhotoStore.StoredPathInjective | Backend/sayhi/src/main/java/com/example/sayhi/service/PhotoService.java:41-44 | in one directory, tokens of one length that give the same stored path are the same token, whatever the extensions |
| PhotoStore.FindById | Backend/sayhi/src/main/java/com/example/sayhi/service/PhotoService.java:53 | the look-up by id finds only a record with that id, and finds none exactly when no record has it |
| PhotoStore.RemoveId | Backend/sayhi/src/main/java/com/example/sayhi/service/PhotoService.java:64 | deletion by id keeps exactly the records with another id |
| PhotoStore.DistinctStoredPaths | Backend/sayhi/src/main/java/com/example/sayhi/service/PhotoService.java:39-49 | records named by distinct tokens have pairwise distinct file paths |
| PhotoStore.FindAfterRemove | Backend/sayhi/src/main/java/com/example/sayhi/service/PhotoService.java:56-66 | after deleting an id, that id finds nothing and every other id finds what it found before |
| PhotoStore.RemoveKeepsOrder | Backend/sayhi/src/main/java/com/example/sayhi/service/PhotoService.java:64 | deleting an id keeps the table in increasing id order |
| PhotoStore.RemoveAbsent | Backend/sayhi/src/main/java/com/example/sayhi/service/PhotoService.java:56-67 | deleting an id that no record has leaves the table unchanged |
| PhotoStore.FindUnique | Backend/sayhi/src/main/java/com/example/sayhi/service/PhotoService.java:52-54 | in a table with increasing ids, each record is exactly what its id finds |
| PhotoStore.FindAfterAppend | Backend/sayhi/src/main/java/com/example/sayhi/service/PhotoService.java:48-49 | saving a record under an unused id: that id finds the new record, every other id finds what it found before |
| PhotoStore.DifferentIdsDifferentPaths | Backend/sayhi/src/main/java/com/example/sayhi/service/PhotoService.java:39-48 | two records with different ids have different file paths |
| PhotoStore.FreshTokenFreshPath | Backend/sayhi/src/main/java/com/example/sayhi/service/PhotoService.java:41-45 | a fresh token gives a path no existing record has, so the copy never overwrites another record's file |
| PhotoStore.SaveKeepsConsistent | Backend/sayhi/src/main/java/com/example/sayhi/service/PhotoService.java:48-49 | saving a record under the next id with a fresh token keeps the store's invariant |
| PhotoStore.RemovedPathOnlyTarget | Backend/sayhi/src/main/java/com/example/sayhi/service/PhotoService.java:58-60 | removing the deleted record's file leaves the files of every remaining record on disk |
| PhotoStore.RemoveKeepsConsistent | Backend/sayhi/src/main/java/com/example/sayhi/service/PhotoService.java:64 | deleting an id keeps the store's invariant |
| PhotoStore.UploadAnswer | Backend/sayhi/src/main/java/com/example/sayhi/service/PhotoService.java:31-50 | an upload stores a record iff the directory exists or is created, the name has a dot and the copy succeeds; the record has the next id, the original name and the path made of the token and the extension; it is BadFilename iff the directory step passed and the name has no dot; otherwise it is an I/O failure with the failing step's message |
| PhotoStore.PhotoService.PathsDistinct | Backend/sayhi/src/main/java/com/example/sayhi/service/PhotoService.java:39-49 | in a valid store no two records share a file path |
| PhotoStore.PhotoService.GetAllPhotos | Backend/sayhi/src/main/java/com/example/sayhi/service/PhotoService.java:27-29 | returns the table's records, in increasing id order and with distinct paths |
| PhotoStore.PhotoService.GetPhotoById | Backend/sayhi/src/main/java/com/example/sayhi/service/PhotoService.java:52-54 | returns the record with that id, or none iff no record has it (so always none for a negative id); nothing changes |
| PhotoStore.PhotoService.UploadPhoto | Backend/sayhi/src/main/java/com/example/sayhi/service/PhotoService.java:31-50 | the result is UploadAnswer's; the directory exists afterwards unless creating it failed; on success exactly one record with the next id is appended, its file is added to the disk, and its path differs from every other record's; on failure table, files and counter are unchanged |
| PhotoStore.PhotoService.DeletePhoto | Backend/sayhi/src/main/java/com/example/sayhi/service/PhotoService.java:56-68 | true iff a record had the id; the table loses exactly that id; its file leaves the disk unless removal fails; every remaining record keeps its file |
| PhotoApi.DownloadUrlInjective | Backend/sayhi/src/main/java/com/example/sayhi/controller/PhotoController.java:37-38 | under one base URL, different ids give different download URLs |
| PhotoApi.BaseUrl | Backend/sayhi/src/main/java/com/example/sayhi/controller/PhotoController.java:37 | the client's serverUrl when it is given, otherwise "http://localhost:8080" |
| PhotoApi.DownloadUrl | Backend/sayhi/src/main/java/com/example/sayhi/controller/PhotoController.java:38 | base + "/api/photos/" + the decimal id + "/download"; the text between path and suffix is the id's decimal rendering and parses back to the id, which DownloadUrlInjective uses |
| PhotoApi.NewPhotoModel | Backend/sayhi/src/main/java/com/example/sayhi/model/Photo.java:12-17 | a listing entry with the given id, name and url, whose thumbnailUrl is a copy of url |
| PhotoApi.UploadReply | Backend/sayhi/src/main/java/com/example/sayhi/controller/PhotoController.java:55-65 | 200 with the new record's id iff the upload stored a record; an I/O failure gives 500 with "Failed to upload photo: " followed by its message; a name without a dot gives 500 with the framework's own error body, since the controller catches only IOException |
| PhotoApi.PhotoController.GetAllPhotos | Backend/sayhi/src/main/java/com/example/sayhi/controller/PhotoController.java:31-49 | one entry per stored photo, in the service's order, with the same id and name; url is base + "/api/photos/" + id + "/download", where base is serverUrl or "http://localhost:8080"; thumbnailUrl equals url; no two entries share a URL |
| PhotoApi.PhotoController.UploadPhoto | Backend/sayhi/src/main/java/com/example/sayhi/controller/PhotoController.java:51-66 | the response is UploadReply of the service's answer; table, files and id counter change only when a record is stored, the counter then by one; the directory exists afterwards unless creating it failed |
| PhotoApi.PhotoController.DownloadPhoto | Backend/sayhi/src/main/java/com/example/sayhi/controller/PhotoController.java:68-92 | an unknown id gives 404; for a known id, a failing URL gives 500; an existing, readable file gives 200 with an attachment named by the record's display name; otherwise 404, the same as an unknown id |
| PhotoApi.PhotoController.DeletePhoto | Backend/sayhi/src/main/java/com/example/sayhi/controller/PhotoController.java:94-109 | 200 "Photo deleted successfully" iff a record had the id, otherwise 404 with an empty body; the table loses exactly that id, its file leaves the disk unless removal fails, every remaining record keeps its file, and the id counter and directory are unchanged |

## Left out

- **File contents.** Byte copying and file contents are not modelled: the disk is a set of paths.
- **Failed copy.** A failed copy is assumed to leave no file behind.
- **Content-Disposition header.** The attachment body carries the file name; the header's text and the octet-stream content type are not built.
- **Path handling.** `Path.resolve` and `toString` are modelled as directory + `/` + name. `Paths.get` normalisation (redundant or trailing separators) is not modelled. Reading a stored path back with `Paths.get` is taken to give the same path.
- **UUIDs.** A UUID is a fresh token of the printed length. Its hex format and randomness are not modelled.
- **Upload time.** `uploadedAt` is an opaque clock reading passed in.
- **Id width.** Record ids are unbounded naturals; the `Long` limit of the table's id sequence is not modelled. Requested ids are unbounded integers, so a negative id gets the unknown-id answer, as in the code.
- **Null file name.** A missing original file name gives a null-pointer exception, an uncaught runtime exception like the one for a name without a dot. The model takes the name as a string; an empty name falls into the no-dot case, with the same 500 outcome.
- **Uncaught exceptions.** The body the framework writes for them is the single value `Unhandled`.
- **Failed file removal.** The stack trace printed when removing a file fails is not modelled.
- **Sign-up race.** The race between the controller's `userExists` check and the service's count check is a concurrency matter and is not modelled. Calls are sequential.
- **Passwords.** They are stored and compared as plain text, as the code does.
- **Web plumbing.** Spring annotations, dependency injection, CORS and JSON serialisation are not modelled. A response is a status and a body value.
- **Listing order.** The repository's `findAll` is taken to return records in id order, which is insertion order.
- **Other code.** The FTP client, the JDBC repositories, the file controller, the global exception handler and the separate `Java Project` variant are not part of this model.

## Behaviour of the code worth noting

- **Signup fields.** Signup rejects only null fields; empty strings are accepted.
- **Missing file on download.** A known id whose file is missing or unreadable gives 404, the same answer as an unknown id.
- **Upload with a bad name.** No name check precedes an upload. A name without a dot fails with an uncaught exception after the upload directory has already been created.
- **Failed file removal.** Deletion removes the record even when removing the file fails, which can leave an orphaned file.
- **Order of the signup guards.** The count guard comes before the name-collision guard.
