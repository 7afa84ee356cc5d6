# CampusConnect core logic in Dafny

This project models the three pieces of CampusConnect that carry behaviour of their own. The rest of the application renders pages or calls hosted services.

- **Interest editing.** The profile page's "Edit Interests" dialog keeps a draft list of tags. *Add* trims the typed text and rejects it when it is blank or already present ignoring case. Otherwise it appends the text and clears the input field. *Remove* deletes every entry that equals a tag exactly. Around the draft sits a small state machine. Opening or closing the dialog copies the parent's list back into the draft. A successful save hands the draft to the parent and closes the dialog. A failed save changes nothing. (`Text`, `Interests`, `InterestsDialog`)
- **"Did you mean" retry.** The suggestion flow calls the language-model prompt at most three times and returns the first output. Every failure is followed by a one-second pause, the last failure included. When all three calls fail, the flow rethrows the third error. The prompt is an opaque function from the input and the attempt number to `Ok(output)` or `Err(error)`. The pauses are added up in milliseconds rather than slept. (`SuggestionRetry`)
- **Session.** The mock authentication provider starts signed in as a fixed user with `loading` false. `updateUser` spreads a partial record over the current user and does nothing when there is no user. `signOut` clears the user. The `User` record follows `src/types/index.ts:1-8`. Its `string | null` fields are `Option<string>`, and `Partial<User>` is a record of options. (`Optional`, `Auth`)
- **Profile glue.** The profile page passes the user's tags to the dialog as its parent list. On a successful save it writes the draft back through `updateUser` (the profile page, lines 44-48 and 82-85). (`Profile`)

Two details of the code shape the model:
- A pause also follows the final failure, so running out of retries costs three pauses.
- The draft is an ordered list. Add rejects duplicates ignoring case, while remove is case-sensitive.

## Model

| member | source | states |
|---|---|---|
| `Text.Trim` | src/components/edit-interests-dialog.tsx:33 | The trimmed value is a contiguous slice of the input. Only white space is dropped before and after it, and it neither starts nor ends with white space. It is empty exactly when the input is blank. |
| `Interests.IsKnown` | src/components/edit-interests-dialog.tsx:34 | Looking up the lower-cased value in the lower-cased list succeeds exactly when some entry equals the value ignoring case. |
| `Interests.AddInterest` | src/components/edit-interests-dialog.tsx:32-38 | A blank input, or one that is already present ignoring case, leaves the list and the input field unchanged. Any other input appends exactly its trimmed text at the end and clears the field. The field is left as typed exactly when the list is unchanged. |
| `Interests.RemoveInterest` | src/components/edit-interests-dialog.tsx:40-42 | The result holds exactly the entries that differ from the argument. Each entry keeps its multiplicity and every copy of the argument is dropped. Removing an absent value returns the list unchanged. |
| `Interests.RemoveDistributes` | src/components/edit-interests-dialog.tsx:41 | Remove filters entry by entry: removing from a concatenation is the concatenation of the removals. Survivors therefore keep their original order. |
| `Interests.AddKeepsNoCaseDuplicates` | src/components/edit-interests-dialog.tsx:33-35 | If no two entries are equal ignoring case before an add, none are after it. |
| `Interests.NoCaseDuplicatesCons` | src/components/edit-interests-dialog.tsx:34 | Putting a tag in front of a duplicate-free list keeps it duplicate-free exactly when the tag is new ignoring case. |
| `Interests.RemoveKeepsNoCaseDuplicates` | src/components/edit-interests-dialog.tsx:41 | Removing never creates a case-insensitive duplicate. |
| `Interests.AddThenRemove` | src/components/edit-interests-dialog.tsx:32-42 | After a successful add, removing the trimmed text gives back the list as it was before the add. |
| `Interests.AddSameTwiceRejected` | src/components/edit-interests-dialog.tsx:33-36 | Adding the same text a second time leaves the list unchanged. |
| `InterestsDialog.Mount` | src/components/edit-interests-dialog.tsx:21-30 | A newly mounted dialog is closed, its draft is the parent's list and its input field is empty. |
| `InterestsDialog.MountValid` | src/components/edit-interests-dialog.tsx:21-30 | A dialog mounted on a parent list with no case-insensitive duplicates starts out satisfying the dialog invariant. |
| `InterestsDialog.Step` | src/components/edit-interests-dialog.tsx:28-63 | Only a successful save while open changes the parent's list, and it sets that list to the draft. A successful save also closes the dialog. A failed save changes nothing. Toggling the dialog resets the draft to the parent's list. A closed dialog ignores edits, and setting the open flag to its current value changes nothing. On an open dialog, typing sets the input field, Add applies `AddInterest` to the draft and the field, and a tag's remove button applies `RemoveInterest` to the draft. |
| `InterestsDialog.StepKeepsValid` | src/components/edit-interests-dialog.tsx:28-55 | Each event preserves the invariant. Neither the parent's list nor the draft holds two tags equal ignoring case, and a closed dialog's draft equals the parent's list. |
| `InterestsDialog.RunKeepsValid` | src/components/edit-interests-dialog.tsx:28-63 | Every sequence of events preserves the same invariant. |
| `InterestsDialog.ParentChangesOnlyOnSave` | src/components/edit-interests-dialog.tsx:44-62 | If no event in a sequence is a successful save, the parent's list stays the same. |
| `InterestsDialog.CancelDiscardsEdits` | src/components/edit-interests-dialog.tsx:28-30 | Edits followed by closing without a save leave the parent's list unchanged and reset the draft. Reopening shows the parent's list again. |
| `SuggestionRetry.FirstSuccess` | src/ai/flows/did-you-mean.ts:44-47 | Returns the first successful attempt index at or after the start. Every attempt before it failed. |
| `SuggestionRetry.SuggestionsFlow` | src/ai/flows/did-you-mean.ts:41-56 | Makes one to three calls, each with the same unmodified input, and no call after a success. Success on call k returns that call's output after k-1 pauses. When all three calls fail, it throws the third error after three pauses of 1000 ms. The result matches the loop-free reference `Expected`. |
| `SuggestionRetry.Expected` | src/ai/flows/did-you-mean.ts:44-55 | The reference run makes one to three calls. A success waits 1000 ms per earlier failure. Exhaustion means three calls and 3000 ms of waiting. |
| `Auth.Merge` | src/hooks/use-auth.tsx:37-42 | Every field present in the partial record replaces the user's value. Every other field keeps the user's value. |
| `Auth.OverlaysUnique` | src/hooks/use-auth.tsx:39 | The field-by-field overlay rule determines the merged record completely. |
| `Auth.MergeComposes` | src/hooks/use-auth.tsx:39 | Two successive updates equal one update with the two partial records spread together, with the later one winning. |
| `Auth.MergeLaws` | src/hooks/use-auth.tsx:39 | An empty partial record changes nothing. A complete record replaces the user. Applying the same partial record twice equals applying it once. |
| `Auth.InitialSession` | src/hooks/use-auth.tsx:33-34 | The session starts with exactly the mock user record signed in, including its three tags, and `loading` false. |
| `Auth.UpdateUser` | src/hooks/use-auth.tsx:37-42 | With no user, the session is unchanged. With a user, it overlays the partial record. `loading` is untouched. |
| `Auth.SignOut` | src/hooks/use-auth.tsx:44-47 | Afterwards there is no user, and `loading` is untouched. |
| `Auth.LoadingStaysFalse` | src/hooks/use-auth.tsx:33-49 | No sequence of updates and sign-outs sets `loading`. |
| `Auth.SignedOutStaysSignedOut` | src/hooks/use-auth.tsx:37-47 | Once signed out, every later update or sign-out leaves the session as it is. |
| `Profile.OnInterestsUpdate` | src/components/edit-interests-dialog.tsx:50 | This is the profile page's `onInterestsUpdate` callback. With a user, only the user's tags change, to the given list. With no user, nothing changes. |
| `Profile.PageStep` | src/components/edit-interests-dialog.tsx:20 | The dialog takes the event exactly as `InterestsDialog.Step` does. The session changes only on a successful save of an open dialog. The dialog's parent list stays equal to the signed-in user's tags, and the user stays signed in. |
| `Profile.MockTagsDistinct` | src/hooks/use-auth.tsx:13 | The mock user's three tags are distinct ignoring case. |
| `Profile.PageKeepsValid` | src/components/edit-interests-dialog.tsx:28-55 | After any sequence of dialog events from the first render, the dialog shows the user's tags and satisfies its invariant. The user's saved tags have no case-insensitive duplicates. |
| `Profile.RunPageKeepsValid` | src/components/edit-interests-dialog.tsx:20-63 | From any page state where the dialog shows the user's tags and satisfies its invariant, every event sequence keeps both. |
| `Profile.SaveReachesSession` | src/components/edit-interests-dialog.tsx:49-55 | A successful save makes the draft the user's tags, leaves every other field unchanged and closes the dialog. |

## Left out

- `Text.Lower`: lower-cases only the ASCII letters A-Z. JavaScript's `toLowerCase` maps the whole Unicode range. The duplicate invariant only needs equality of lower-cased images, so it holds for any case mapping.
- `Text.Trim`: strips the white-space and line-terminator characters that ECMAScript lists. It is exact, apart from possible Unicode versions that add space separators.
- `InterestsDialog.Step`: a save is one atomic event carrying the server action's success flag. The `isSaving` flag and the disabled Save button are not modelled. Neither are edits made, or a close, while the request is in flight. Neither are the toasts.
- `InterestsDialog.Step`: changes to the parent's list made elsewhere while the dialog is mounted are not events. The only writer shown is the dialog's own save.
- `Auth.UpdateUser`: models calls taking effect one after another. The source's callback holds the `user` of the last render, so two updates in the same render would both start from the same user. That interleaving is not modelled.
- `Auth.Merge`: a property that is present but explicitly `undefined` would overwrite the field under the spread. Partial records here have no such value.
- `Auth.SignOut`: navigation to `/login` is not modelled.
- The default context value used outside a provider (src/hooks/use-auth.tsx:25-30) is not modelled. Its operations do nothing.
- `updateInterests` (src/actions/user.ts) is reduced to its `success` flag. The shown stub always succeeds, and the model allows either outcome.
- The Genkit prompt, its JSON output schema, the `output!` non-null assertion, logging and real `setTimeout` timing are not modelled. A prompt call is an opaque outcome, and the pauses are a millisecond count.
- The login page, event and user cards, the question-history action and any interest-based filtering of events or peers are not modelled. They are rendering, external sign-in or persistence stubs, and filtering appears in no modelled file.
