# Post submission and sign-up validation, modelled in Dafny

The repository is a browser client for a photo-sharing application. This project models its two
pieces of decision logic:

- **The post form** (`src/components/forms/PostForm.tsx`): the form's default values, the flag
  that disables its submit button, and the submit handler `handleSubmit`. The handler uploads the
  first attached file to blob storage, if there is one, and derives its view URL. It then issues
  exactly one mutation: it updates the edited post, or it creates a new post. Finally it reports
  the outcome with a toast, navigates, or both.
- **The sign-up schema** (`src/lib/validation/index.ts`): `SignupValidation`, four string fields,
  each with one acceptance rule and one fixed error message.

Files:

- `wrappers.dfy`: `Option` and `Result`.
- `strings.dfy`: `Join` models `Array.prototype.join`, as the form uses it for the tags. `Split`
  models `String.prototype.split` and serves as its inverse. Round trips are proved both ways.
- `validation.dfy`: module `Validation`, the sign-up schema.
- `post_form.dfy`: module `PostForm`, the default values, the disabled flag and the handler.

The handler is the imperative method `PostForm.HandleSubmit`. Its local trace starts empty and
gets one event per effect: the upload call, the mutation call with its payload, `console.error`,
each toast, and the navigation. The local `fileUrl` starts as `""` and is reassigned after the
upload. The `try`/`catch` becomes a local `failure` message. The early `return` after the update
navigation is kept. What the storage, the mutation hooks and the session would do is passed in:

- `upload: UploadResult` is the upload followed by `getFileView(...).href`. It either gives the
  URL or throws a message.
- `mutation: MutationResult` is the one mutation the handler awaits. It either resolves to a
  truthy or falsy value or throws a message.
- `userId` is `user.id`. `post` is the optional edited document. `action` is `Create` or `Update`.

The handler is proved equal to `SubmitTrace`, a stage-by-stage description: upload stage,
then mutation stage, then report stage. The properties of a submission are lemmas about
`SubmitTrace` that hold for every combination of inputs. `OfKind(trace, k)` is the sequence of
events of one kind, in trace order, and the lemmas are stated through it.

The e-mail rule of the sign-up schema is library code. It is the parameter `isEmail`. String
length is sequence length.

## Model

| member | source | states |
|---|---|---|
| PostForm.HandleSubmit | src/components/forms/PostForm.tsx:84-138 | the event trace of one call to the handler is exactly the upload stage, then the mutation stage, then the report stage, for every upload outcome, mutation outcome, mode and post |
| PostForm.UploadsFirstFileOnly | src/components/forms/PostForm.tsx:89-95 | an upload is attempted if and only if the file list is non-empty, and the only file uploaded is `value.file[0]` |
| PostForm.UploadFailureStops | src/components/forms/PostForm.tsx:89-137 | a thrown upload means no mutation and no navigation; the error is logged, and exactly one toast appears, titled "{action} post failed." with the thrown message as its description |
| PostForm.AtMostOneMutation | src/components/forms/PostForm.tsx:101-123 | a submission issues no mutation after a thrown upload and exactly one mutation otherwise; that mutation is the update if and only if a post is present and the action is "Update" |
| PostForm.UpdatePayloadSent | src/components/forms/PostForm.tsx:102-108 | the update payload carries the form value, the new file's URL when it is non-empty and otherwise the post's current `imageUrl` (no file: always the current one), and `postId` and `imageId` both `""` |
| PostForm.CreatePayloadSent | src/components/forms/PostForm.tsx:119-123 | every other combination, including "Update" with no post, creates with the form value, the uploaded URL (`""` when there is no file) and `userId` equal to the user's id |
| PostForm.SoftFailureNavigates | src/components/forms/PostForm.tsx:110-130 | when nothing throws, a falsy result gives exactly the toast "{action} post failed. Please try again."; a truthy result gives no toast; either way the handler navigates once, to `/posts/{post.$id}` after an update and to `/` after a create |
| PostForm.MutationFailureStops | src/components/forms/PostForm.tsx:131-137 | a thrown mutation follows exactly one mutation call; it is logged, toasted as "{action} post failed." with its message, and no navigation follows |
| PostForm.NavigatesUnlessThrown | src/components/forms/PostForm.tsx:115-137 | the handler navigates if and only if neither the upload nor the mutation threw, and the navigation is then the last event |
| PostForm.StagesInOrder | src/components/forms/PostForm.tsx:86-137 | the upload comes before the mutation, which comes before the error log, the toast and the navigation, in that order |
| PostForm.CreatePathIgnoresPost | src/components/forms/PostForm.tsx:102-130 | off the update path, the mode and the post do not change the upload, the mutation or the navigation; only the toast titles name the action |
| PostForm.FailureTitlesDistinct | src/components/forms/PostForm.tsx:111-134 | the soft-failure and hard-failure toast titles never coincide, and each title determines the action |
| PostForm.DefaultValues | src/components/forms/PostForm.tsx:37-42 | the initial form value has no file; with no post every field is empty text; with a post, caption and location are the post's own |
| PostForm.DefaultTags | src/components/forms/PostForm.tsx:41 | the initial tags text is the post's tags joined by ","; splitting it on "," gives back any non-empty list of comma-free tags; an empty list shows as `""` |
| Strings.SplitJoin | src/components/forms/PostForm.tsx:41 | splitting a comma-joined, non-empty list of separator-free parts gives back the parts |
| Strings.JoinSplit | src/components/forms/PostForm.tsx:41 | joining the parts of any split gives back the original string, so the joined text loses nothing |
| PostForm.SubmitDisabled | src/components/forms/PostForm.tsx:225 | the submit button is enabled exactly when neither the create nor the update mutation is loading |
| Validation.MinLength | src/lib/validation/index.ts:4-7 | a `.min(n)` rule reports nothing exactly when the string has at least n characters, and otherwise reports one issue with its field's message |
| Validation.Issues | src/lib/validation/index.ts:3-9 | parsing reports at most four issues; it reports none exactly when all four rules hold; every reported issue names a field whose rule fails and carries that field's message |
| Validation.FieldRules | src/lib/validation/index.ts:4-7 | name fails with "Name must be atleast 2 characters!" exactly below 2 characters; username fails with "Username must be atleast 4 characters!" exactly below 4; email fails exactly when the format predicate rejects it; password fails with "Password must be atleast 8 characters!" exactly below 8 |
| Validation.ParseSignup | src/lib/validation/index.ts:3-9 | the form is accepted exactly when all four field checks pass, and it then comes back unchanged; otherwise it is rejected with one to four issues |

Validation is a set of Dafny functions. It has no side effects and depends only on its input.

### Behaviour worth noting

- The update payload sends `postId: ""` and `imageId: ""` (PostForm.tsx:106-107), not the edited
  post's id. The model sends `""`, as the code does. The mutation hook is not part of this model,
  so what the backend makes of it cannot be stated here.
- A thrown upload is caught by the same `catch` as a thrown mutation (PostForm.tsx:131-137), so
  the handler then does not navigate.
- The update image is `fileUrl || post.imageUrl` (PostForm.tsx:105), so an upload that yields an
  empty URL also keeps the old image.
- In "Update" mode without a post, the create path runs, but the toasts still say
  "Update post failed…", because their titles use `action` and not the path taken.

## Left out

- Uploads, the storage view URL and `ID.unique()` are network and library calls. Together they
  are the input `UploadResult`. The generated file id is not modelled.
- The bodies of `useCreatePost` and `useUpdatePost` are not part of this model. That includes
  tag-string parsing on submit and the payload keys' meaning to the backend. The awaited result
  is the input `MutationResult`.
- `toast`, `navigate` and `console.error` are recorded as trace events only. The log event keeps
  only the error's message, not the fixed prefix 'Error creating/updating post:' or the error
  object that `console.error` receives (PostForm.tsx:132).
- `PostValidation` is not part of this model, because its rules are not in the validation file.
  The handler receives an already-validated value, and its behaviour does not depend on those
  rules, so it carries no precondition for them.
- Asynchronous scheduling, double submission, and the loading flags as guards are concurrency
  concerns. Only the flag expression at line 225 is modelled.
- JavaScript truthiness: `value.file` is modelled as a sequence and is never undefined. A missing
  `post.imageUrl`, `post.caption` or similar field is not modelled. An error that is not an
  `Error` and has no `message` is not modelled.
- The spread `...value` is modelled as the whole form value carried inside the payload, next to
  the added keys. Its keys do not overlap the added keys.
- The e-mail format rule is the predicate parameter `isEmail`. Its message `"Invalid email"` is
  the schema library's default, because the schema sets none. String length counts characters,
  not UTF-16 code units.
- The JSX rendering, the form-field components, the commented-out earlier handler
  (PostForm.tsx:52-82) and the routing table in `src/App.tsx` are not modelled. They hold no
  decision logic, or they are dead code.
