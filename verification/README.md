# pro-portal core, modelled in Dafny

This project models the server-side logic of the pro-portal knowledge-base
portal and proves properties about it. It covers nine parts:

- **Question grouping** (`Embedding`, with `Sorting` and `Text`). This is
  `groupSimilarTexts`, which turns raw user questions into ranked groups of
  similar questions. The steps are:
  - clean each text and drop the ones that clean to nothing;
  - count the occurrences of each cleaned key and keep one raw text per key;
  - cluster the keys greedily by cosine similarity of their embeddings, with
    a default threshold of 0.85;
  - build one group per cluster, holding its representative, the member
    texts and the summed count;
  - sort the groups by count, descending and stable;
  - apply the `maxGroups` slice.

  The clustering loop is an imperative method, `Cluster`. It is proved equal
  to a recursive reference definition, `Greedy`. The partition, seed and
  ordering properties are proved about `Greedy`.
- **Form validation** (`Validations`):
  - the sign-in, sign-up and contact-us schemas;
  - the password regular expression, proved equivalent to the rule it
    encodes;
  - the bulk-user row and WhatsApp Business account schemas, with their
    trimming and lower-casing transforms.
- **Database retry** (`Db`):
  - the transient-error classifier;
  - the `query` retry loop, modelled as a method over a per-attempt outcome
    function;
  - the mapping of errors to the final error message.
- **Artefact store** (`ArtefactStore`). The client store's auto-processing
  state is a class whose fields are updated in place. It covers stopping and
  resetting auto-processing, adaptive polling intervals, and picking and
  flagging newly processed documents for summarisation. The store's getters
  are modelled as functions.
- **Existence check** (`CheckExists`): the `check-exists` endpoint, single
  and bulk. It covers name cleaning, the SQL placeholders, the lookup map in
  which the last row wins, and the response shapes.
- **Upload** (`Upload`, `FileTypes`): the `upload` endpoint. It covers the
  order of the validation errors, the storage key, the update-or-insert of
  the document row, and the file-type label taken from the extension.
- **Listing** (`ArtefactList`): the `list` endpoint's per-row formatting, its
  content-type and extension labels, and its statistics.
- **Activity feed** (`Activity`): the `activity` endpoint. The per-source
  activity items are pushed by loops, then the five newest are kept.
- **Profile gate** (`ProfileGate`): the middleware that answers 403 to
  authenticated API calls from users whose profile is incomplete.

Some things the source reaches through calls are given to the model as
parameters:

- the text cleaner (`cleanText`);
- the embedding service and cosine similarity;
- e-mail and phone-number validation;
- JWT verification;
- database rows (given as sequences);
- the current time.

A group's representative is the **last** raw text that cleaned to the
seed's key, not the first. `cleanedMap.set` overwrites earlier entries
(`server/utils/embeddingUtils.ts:17`). The model follows the code:
`LastRaw`, `LastRawIsLast` and `Representatives`.

## Model

| member | source | states |
|---|---|---|
| Embedding.Normalize | server/utils/embeddingUtils.ts:10-22 | The loop builds the list of distinct non-empty cleaned keys in first-seen order. It also builds the map from each key to its raw text and the map from each key to its occurrence count. All three equal the reference definitions over the whole input. |
| Embedding.Record | server/utils/embeddingUtils.ts:13-19 | One loop step. A text that cleans to "" changes nothing. Any other text bumps its key's count, makes itself the key's raw text, and appends the key if it is new. |
| Embedding.KeysFrequency | server/utils/embeddingUtils.ts:13-21 | A string is a key exactly when it is non-empty and some text cleans to it. |
| Embedding.KeysDistinct | server/utils/embeddingUtils.ts:17-21 | The keys are pairwise distinct, and "" is never a key. |
| Embedding.KeysEmpty | server/utils/embeddingUtils.ts:13-22 | There are no keys exactly when every text cleans to "". This is the early-return case. |
| Embedding.LastRawIsLast | server/utils/embeddingUtils.ts:17 | The raw text kept for a key is one that cleans to it, and no later text cleans to that key. |
| Embedding.MapsStep | server/utils/embeddingUtils.ts:17-18 | Appending a text with a non-empty key sets that key's raw text to it and increments its count. Every other entry is unchanged. |
| Embedding.MapsSkip | server/utils/embeddingUtils.ts:15 | Appending a text that cleans to "" leaves both maps unchanged. |
| Embedding.FrequenciesAddUp | server/utils/embeddingUtils.ts:13-21 | The counts over all keys add up to the number of texts with a non-empty cleaned form. |
| Embedding.Scan | server/utils/embeddingUtils.ts:34-41 | The indices the inner loop collects for seed `i` lie strictly between `i` and the number of keys, so the seed is never collected again. |
| Embedding.ScanSound | server/utils/embeddingUtils.ts:34-41 | Every collected index was unused, lies after the seed, and has similarity to the seed of at least the threshold. |
| Embedding.ScanComplete | server/utils/embeddingUtils.ts:34-41 | Every unused later index whose similarity to the seed reaches the threshold is collected. |
| Embedding.ScanAscending | server/utils/embeddingUtils.ts:34-41 | Collected indices are strictly ascending, in discovery order. |
| Embedding.ScanUsedMembers | server/utils/embeddingUtils.ts:32-39 | After the scan, an index is used exactly when it was used before, is the seed, or was collected. |
| Embedding.GreedyFrom | server/utils/embeddingUtils.ts:28-44 | Every cluster formed from index `i` on is non-empty and holds only indices in `[i, n)`. |
| Embedding.Greedy | server/utils/embeddingUtils.ts:28-44 | Every cluster is non-empty and holds only valid key indices. |
| Embedding.ScanStep | server/utils/embeddingUtils.ts:35-40 | Index `j` joins the seed's cluster and becomes used exactly when it is unused and its similarity reaches the threshold. Otherwise nothing changes. |
| Embedding.Visit | server/utils/embeddingUtils.ts:34-41 | One inner-loop step keeps the cluster, the used set and the member texts equal to the reference scan up to `j + 1`. |
| Embedding.Collect | server/utils/embeddingUtils.ts:31-41 | The inner loop yields the seed followed by the reference scan's indices, the reference used set, and the raw texts of those keys. |
| Embedding.GreedyStep | server/utils/embeddingUtils.ts:29-44 | An unused seed starts a cluster made of itself and its scan, and the clustering continues with the updated used set. |
| Embedding.GreedySkip | server/utils/embeddingUtils.ts:29 | A used index starts no cluster. |
| Embedding.Seed | server/utils/embeddingUtils.ts:28-44 | One outer-loop step preserves `done + rest-of-clustering`, and the labelled clusters equal the labelling of `done`. |
| Embedding.Cluster | server/utils/embeddingUtils.ts:25-44 | The clustering loops return the reference greedy clusters, with each index replaced by its key's raw text. |
| Embedding.ScanOnce | server/utils/embeddingUtils.ts:34-41 | A scan holds each index at most once, and only unused indices after the seed. |
| Embedding.PartitionTurn | server/utils/embeddingUtils.ts:28-44 | One seed's turn adds the seed and its scan to the clusters, and marks exactly those indices used. |
| Embedding.GreedyPartitionFrom | server/utils/embeddingUtils.ts:25-44 | Clustering from `i` places each index once if it is in `[i, n)` and unused, and never otherwise. |
| Embedding.GreedyFresh | server/utils/embeddingUtils.ts:29-35 | No cluster contains an index that was already used. |
| Embedding.GreedySeeds | server/utils/embeddingUtils.ts:31-40 | In every cluster the members ascend, and each non-seed member is similar to the cluster's seed. |
| Embedding.SeedExcludes | server/utils/embeddingUtils.ts:34-40 | No index in a later cluster is similar to an earlier seed, and each lies after that seed. |
| Embedding.GreedyExcluded | server/utils/embeddingUtils.ts:28-44 | For every pair of clusters, each member of the later one lies after the earlier seed and is not similar to it. |
| Embedding.GreedyClusters | server/utils/embeddingUtils.ts:25-44 | The clusters partition the key indices: each appears exactly once. They are non-empty and ascending, and every member is similar to its seed. A later cluster holds only indices after an earlier seed and not similar to it. |
| Embedding.NotTransitive | server/utils/embeddingUtils.ts:34-40 | Similarity is not transitive. With 0~1, 1~2 and not 0~2, the clusters are [[0,1],[2]]. |
| Embedding.AtThreshold | server/utils/embeddingUtils.ts:37 | The comparison is `>=`: a similarity equal to the threshold joins. |
| Embedding.LabelAllNonEmpty | server/utils/embeddingUtils.ts:43 | Every cluster of texts is non-empty, so `group[0]` always exists. |
| Embedding.Truncate | server/utils/embeddingUtils.ts:60-64 | The result is a prefix of the sorted groups. No limit, or a limit of 0, keeps all of them. A positive limit keeps `min(limit, n)`. A negative limit drops that many from the end, as `slice(0, -k)` does. |
| Embedding.IndexClusters | server/utils/embeddingUtils.ts:21-44 | The clusters of one call are non-empty and index only real keys. |
| Embedding.GroupSimilarTexts | server/utils/embeddingUtils.ts:5-65 | The routine returns the reference grouping, with the threshold defaulting to 0.85. It asks the embedding service once, with the key list, and not at all when there are no keys. |
| Embedding.LastRawCleans | server/utils/embeddingUtils.ts:17 | A key's raw text cleans back to that key. |
| Embedding.NothingToGroup | server/utils/embeddingUtils.ts:21-22 | When every text cleans to "", the result is empty. |
| Embedding.CreatedTexts | server/utils/embeddingUtils.ts:43-55 | There is one group per cluster. Its question list has one entry per cluster member: the raw text kept for that member's key. The representative is the first question. |
| Embedding.CreatedTotals | server/utils/embeddingUtils.ts:47-50 | A group's total is the sum of the counts of its cluster's keys. |
| Embedding.Representatives | server/utils/embeddingUtils.ts:43 | Each group's representative is the kept raw text of its seed key, and it cleans to that key. |
| Embedding.ClustersCoverKeys | server/utils/embeddingUtils.ts:25-44 | Taken together, the clusters of a call hold each key index exactly once. |
| Embedding.CountsConserved | server/utils/embeddingUtils.ts:46-56 | The group totals add up to the number of non-blank input texts, so no occurrence is lost or counted twice. |
| Embedding.GroupingOrdered | server/utils/embeddingUtils.ts:58-64 | The result is a prefix of a permutation of the groups sorted by total, descending. Every group kept has a total at least that of every group dropped. |
| Embedding.GroupingUnlimited | server/utils/embeddingUtils.ts:58-64 | Without a limit, every group is returned and the totals add up to the non-blank input count. |
| Embedding.GroupingStable | server/utils/embeddingUtils.ts:58-64 | Groups with equal totals keep their creation (seed) order. |
| Sorting.SortDescOrdered | server/utils/embeddingUtils.ts:58 | The descending sort yields a non-increasing sequence that is a permutation of its input. |
| Sorting.SortDescStable | server/utils/embeddingUtils.ts:58 | The sort is stable: the elements with any one key value keep their relative order. |
| Sorting.TakeLargest | server/api/integrations/activity.get.ts:137 | A prefix of a descending sequence holds elements no smaller than the rest, and the prefix and the rest together form the whole. |
| Text.ReplaceWhitespaceRuns | server/api/artefacts/check-exists.post.ts:52 | The cleaned name has no whitespace and is no longer than the input. It is empty only when the input is. |
| Text.ReplaceWhitespaceRunsSplit | server/api/artefacts/check-exists.post.ts:52 | Each maximal whitespace run becomes exactly one `_`, and the text between runs is kept. |
| Text.ReplaceWhitespaceRunsKeeps | server/api/artefacts/check-exists.post.ts:52 | A name without whitespace is unchanged. |
| Text.ReplaceWhitespaceRunsIdempotent | server/api/artefacts/check-exists.post.ts:52 | Cleaning twice is the same as cleaning once. |
| Text.TrimEmpty | server/utils/validations.ts:61 | `trim()` is empty exactly when the text is all whitespace. |
| Text.NatToStringRoundTrip | server/api/artefacts/check-exists.post.ts:110 | The decimal text of a placeholder number reads back as that number. |
| Validations.PasswordRegexIsRule | server/utils/validations.ts:53-54 | The password regular expression accepts exactly the strings of at least 8 allowed characters that contain a lower-case letter, an upper-case letter, a digit and one of `@$!%*?&`. |
| Validations.PasswordAccepted | server/utils/validations.ts:53-54 | `Secret1!` matches the password expression. |
| Validations.PasswordRefused | server/utils/validations.ts:53-54 | `secret1!`, which has no upper-case letter, does not match. |
| Validations.SigninPasswordIssues | server/utils/validations.ts:59-61 | A sign-in password is accepted exactly when it is not all whitespace, which includes not empty. |
| Validations.SigninIssues | server/utils/validations.ts:57-62 | The sign-in form is valid exactly when the e-mail is valid and at most 255 long, and the password is not blank. |
| Validations.SignupPasswordIssues | server/utils/validations.ts:68-74 | A sign-up password is accepted exactly when it satisfies the password rule. |
| Validations.SignupLengthSubsumed | server/utils/validations.ts:68-74 | The separate `min(8)` check adds nothing beyond the regular expression. A short password draws both messages. |
| Validations.SignupIssues | server/utils/validations.ts:65-77 | The sign-up form is valid exactly when every field meets its length bound, the e-mail is valid, and the password satisfies the rule. |
| Validations.ContactUsIssues | server/utils/validations.ts:23-48 | The contact form is valid exactly when every field meets its bounds, both selects hold listed options, and the token is non-empty. |
| Validations.RequiredTrimmed | server/utils/validations.ts:150-161 | A trimmed required field succeeds exactly when it is not blank, and yields the trimmed text. Otherwise it yields the "required" issue. |
| Validations.WhatsAppNumber | server/utils/validations.ts:134-149 | The number is accepted exactly when its trimmed form is non-empty, starts with `+` and is a valid phone number, and the trimmed form is kept. |
| Validations.ParseRole | server/utils/validations.ts:122-129 | The role is accepted exactly when its trimmed, lower-cased form is `user` or `admin`, and that form is the result. A blank role draws two issues. |
| Validations.RoleExample | server/utils/validations.ts:122-129 | `Admin` parses to `admin`. |
| Validations.ParseBulkUser | server/utils/validations.ts:100-130 | A bulk row is accepted exactly when every field passes its rule. The parsed row holds the trimmed values and the lower-cased role. |
| Validations.ParseBusinessWhatsApp | server/utils/validations.ts:133-162 | The account is accepted exactly when the number passes and all three credentials are non-blank. The parsed account holds the trimmed values. |
| Db.TransientByCode | server/utils/db.ts:26-59 | A missing error is never transient. An error whose code is one of the listed Postgres or network codes always is. |
| Db.TransientByMessage | server/utils/db.ts:61-68 | An error whose message contains one of the listed words, in any ASCII case, is transient. |
| Db.NotTransient | server/utils/db.ts:61-70 | A code-less error whose lower-cased message contains none of the words is not transient. |
| Db.FailureOf | server/utils/db.ts:101-111 | Each of the four special codes maps to its own message, and every other error maps to the generic one. |
| Db.Retries | server/utils/db.ts:78 | The retry count defaults to 1 and is clamped at 0. |
| Db.Backoff | server/utils/db.ts:79 | The back-off defaults to 150 ms and is clamped at 0. |
| Db.Query | server/utils/db.ts:76-118 | At most `retries + 1` attempts are made, and each retried failure was transient. One back-off wait precedes each retry. The result is the rows of the last attempt, or the mapped error of a failure that was final or not transient. |
| ArtefactStore.PendingSummarizations | stores/artefacts/index.ts:58-65 | The pending documents are exactly the processed, unsummarised ones that are neither in progress nor already attempted. |
| ArtefactStore.AllDocumentsProcessed | stores/artefacts/index.ts:66-69 | True exactly when no document's status differs from `processed`. |
| ArtefactStore.AllDocumentsSummarized | stores/artefacts/index.ts:70-75 | True exactly when no document is processed but unsummarised. |
| ArtefactStore.NothingToProcess | stores/artefacts/index.ts:58-75 | An empty store is fully processed and summarised, and has nothing pending. |
| ArtefactStore.ProcessingProgress | stores/artefacts/index.ts:76-86 | `processed` counts the processed and summarised documents out of `total`. The percentage is 0 for an empty store, otherwise the nearest integer to `100 * processed / total`, and always between 0 and 100. |
| ArtefactStore.RoundedPercentage | stores/artefacts/index.ts:84 | The result is within one half of `100 * part / whole`, with halves rounded up, and lies in 0..100. |
| ArtefactStore.FindById | stores/artefacts/index.ts:772 | `find` returns the first document with that id, or nothing exactly when no document has it. |
| ArtefactStore.FindIndexById | stores/artefacts/index.ts:788 | `findIndex` returns the first index with that id, or -1 exactly when there is none. |
| ArtefactStore.NewlyProcessedDocs | stores/artefacts/index.ts:771-779 | The selection holds exactly those current documents that have a previous version not yet processed, are now processed and unsummarised, and are neither in progress nor attempted. |
| ArtefactStore.Store.constructor | stores/artefacts/index.ts:7-35 | The initial state has no artefacts, is off and not polling, has empty sets, and uses a 10 s interval. |
| ArtefactStore.Store.StopAutoProcessing | stores/artefacts/index.ts:735-746 | Stopping turns auto-processing off, stops polling and clears the in-progress set. It keeps the attempted set, the artefacts and the interval. |
| ArtefactStore.Store.CheckForNewlyProcessedDocuments | stores/artefacts/index.ts:767-820 | When enabled, the newly processed documents are picked and their ids are added to both sets. The first artefact with each picked id is flagged as summarising, and nothing else changes. When disabled, the method does nothing. |
| ArtefactStore.Store.StartSummarizing | stores/artefacts/index.ts:783-792 | One picked document is marked in both sets, and the first artefact with its id, if any, is flagged as summarising. |
| ArtefactStore.Store.AdjustPollingInterval | stores/artefacts/index.ts:877-897 | The interval shrinks by 2 s, not below 5 s, when the load is high. It grows by 3 s, not above 60 s, when the load is light. Otherwise it stays. The restart branch never fires, because it compares the interval with itself. |
| ArtefactStore.Store.ResetAutoProcessing | stores/artefacts/index.ts:903-910 | Resetting stops auto-processing, clears both sets, clears every artefact's summarising flag and restores the 10 s interval. |
| ArtefactStore.FlagStep | stores/artefacts/index.ts:788-792 | Flagging the first artefact with one more id keeps the flagged set equal to the first artefacts with the picked ids. |
| CheckExists.FilesToCheck | server/api/artefacts/check-exists.post.ts:43-48 | A non-empty `fileName` wins over `fileNames`. The list is empty only when neither is given. |
| CheckExists.CleanAll | server/api/artefacts/check-exists.post.ts:52 | Each name is cleaned in place. |
| CheckExists.CleanedBlank | server/api/artefacts/check-exists.post.ts:94 | A cleaned name is valid exactly when the original was non-empty. |
| CheckExists.ValidNames | server/api/artefacts/check-exists.post.ts:94 | The valid names are exactly the cleaned names that are valid. |
| CheckExists.NoValidNames | server/api/artefacts/check-exists.post.ts:94-107 | No name survives exactly when every requested name is empty. |
| CheckExists.PlaceholdersBind | server/api/artefacts/check-exists.post.ts:110-121 | Parameter `$1` is the organisation id, and placeholder `$k+2` binds the k-th valid name. |
| CheckExists.Select | server/api/artefacts/check-exists.post.ts:111-121 | The query returns only rows whose name was asked for, and returns nothing exactly when no row matches. |
| CheckExists.SelectLast | server/api/artefacts/check-exists.post.ts:118-132 | Filtering by the requested names does not change which row is last for a requested name. |
| CheckExists.SelectFirst | server/api/artefacts/check-exists.post.ts:59-79 | The single lookup's first row is the first table row with that name. |
| CheckExists.ExistingMapLast | server/api/artefacts/check-exists.post.ts:124-132 | A name is in the lookup map exactly when some row has it, and the map holds the info of the last such row. |
| CheckExists.Check | server/api/artefacts/check-exists.post.ts:43-145 | With no names the request fails with "names required". A single `fileName` gives a single answer. Otherwise there is one bulk result per requested name. |
| CheckExists.SingleAnswer | server/api/artefacts/check-exists.post.ts:55-81 | The single answer says "exists" exactly when some row has the cleaned name. Its info is that of the first such row, with the category defaulting to "Uncategorized". |
| CheckExists.BulkAnswer | server/api/artefacts/check-exists.post.ts:94-145 | There is one result per requested name, in order, carrying the original and cleaned names. It says "exists" exactly when the name is non-empty and a row has the cleaned name, and then holds the last such row's info. |
| Upload.ValidateUpload | server/api/artefacts/upload.post.ts:71-95 | The error conditions are checked in source order: no file, a file without a name, a missing category, then a file over 20 MB. An accepted upload carries the original and cleaned names and the category. |
| Upload.CompanyName | server/api/artefacts/upload.post.ts:47 | The organisation name keeps its length: each space becomes `_`, each other character is lower-cased in place, and no space or upper-case letter is left. |
| Upload.DestinationKey | server/api/artefacts/upload.post.ts:95-105 | The key is the organisation's folder prefix followed by a whitespace-free file name. |
| Upload.SameKeySameName | server/api/artefacts/upload.post.ts:95-105 | Two uploads get the same key exactly when their names clean to the same text. |
| Upload.FirstNamed | server/api/artefacts/upload.post.ts:108-112 | The existing-row lookup finds the first row with that name, or none exactly when there is none. |
| Upload.Write | server/api/artefacts/upload.post.ts:143-174 | An existing name is updated in place: the first such row gets the new category and timestamp, and no other row changes. Otherwise one row is appended. |
| Upload.HandleUpload | server/api/artefacts/upload.post.ts:71-199 | The handler fails exactly when validation fails, with the same error. On success the table is the result of writing the upload, and the key, the file type and update-versus-insert follow from the cleaned name. An empty description becomes "-", and any other is kept. |
| Upload.WrittenFirst | server/api/artefacts/upload.post.ts:143-174 | After a write, the first row with the name carries the new category and timestamp. |
| Upload.UploadThenCheck | server/api/artefacts/upload.post.ts:95-174 | After an accepted upload, the existence check for the same file reports it, with its category and timestamp. |
| Upload.UploadTwice | server/api/artefacts/upload.post.ts:108-174 | Uploading the same file twice updates on the second write and does not grow the table. |
| FileTypes.Extension | server/api/artefacts/upload.post.ts:228 | The extension is the longest dot-free suffix, and it is preceded by a dot unless it is the whole name. |
| FileTypes.ExtensionAfterDot | server/api/artefacts/upload.post.ts:228 | The extension of `base.ext` is `ext`. |
| FileTypes.NoDotIsExtension | server/api/artefacts/upload.post.ts:228 | A name without a dot is its own extension. |
| FileTypes.TypeByExtension | server/api/artefacts/upload.post.ts:227-241 | The label is the table entry for the lower-cased extension, and "Unknown" exactly when there is none. |
| FileTypes.TypeOfExtension | server/api/artefacts/upload.post.ts:227-241 | `base.ext` is labelled like `ext`, whatever the base. |
| FileTypes.BarePdf | server/api/artefacts/upload.post.ts:227-241 | `pdf` alone is labelled PDF. |
| FileTypes.UpperCaseDocx | server/api/artefacts/upload.post.ts:227-241 | `Report.DOCX` is labelled Word, because case is ignored. |
| ArtefactList.Categories | server/api/artefacts/list.post.ts:69-70 | The category set is exactly the categories present, and has at most one per document. |
| ArtefactList.ComputeStats | server/api/artefacts/list.post.ts:66-75 | The total is the row count. The processed count is the number of rows whose status is `processed`. The category count is at most the total, and there are no categories exactly when there are no rows. |
| ArtefactList.SizesAddUp | server/api/artefacts/list.post.ts:73-75 | The byte total is the sum of the sizes of the rows that have one; a row without a size adds 0. |
| ArtefactList.CategoriesCounted | server/api/artefacts/list.post.ts:69-70 | The category count is the number of distinct categories. |
| ArtefactList.SizeBounds | server/api/artefacts/list.post.ts:73-75 | With non-negative sizes, the total size is non-negative and at least each file's size. |
| ArtefactList.StatsIgnoreOrder | server/api/artefacts/list.post.ts:66-75 | The statistics do not depend on the row order. |
| ArtefactList.TypeByContentType | server/api/artefacts/list.post.ts:86-93 | Each label is given exactly when its keyword occurs and no keyword tested before it does, in the order pdf, word or document, text/plain, text/csv, text/markdown, image. None matches exactly when the type contains none of them. |
| ArtefactList.GetFileType | server/api/artefacts/list.post.ts:85-109 | A recognised content type decides the label. Otherwise the extension table does. |
| ArtefactList.Format | server/api/artefacts/list.post.ts:112-131 | Each row keeps its id, name, status, link, summary, content type, size and timestamp. The description, category and uploader come from the row when present, and otherwise are "No description provided", "Uncategorized" and "Unknown User". The type is `getFileType` of the content type and name. The size is the row's size, or 0. `lastUpdated` is the row's timestamp, or unknown. `summarized` is "Yes" exactly when the flag is truthy. |
| ArtefactList.ListArtefacts | server/api/artefacts/list.post.ts:112-151 | The listing formats every row in order, carries the statistics, and says nothing was found exactly when there are no rows. |
| Activity.IntegrationActivity | server/api/integrations/activity.get.ts:72-95 | An integration shows success and "connected" exactly when it is active. Otherwise it shows a warning and "disconnected". |
| Activity.WhatsAppActivity | server/api/integrations/activity.get.ts:98-108 | The WhatsApp item succeeds exactly when its status is truthy. |
| Activity.UserLabel | server/api/integrations/activity.get.ts:114 | The user is shown by name, else by e-mail, else by a fallback, and the label is never empty. |
| Activity.UserSyncActivity | server/api/integrations/activity.get.ts:111-122 | A provisioned user is an info item naming the user and the provisioning platform. |
| Activity.TokenActivity | server/api/integrations/activity.get.ts:125-134 | A usage item exists exactly when messages were processed, and gives the count. |
| Activity.PushIntegrations | server/api/integrations/activity.get.ts:72-95 | The loop appends one item per integration row, in order. |
| Activity.PushWhatsApps | server/api/integrations/activity.get.ts:98-108 | The loop appends one item per WhatsApp row, in order. |
| Activity.PushUserSyncs | server/api/integrations/activity.get.ts:111-122 | The loop appends one item per provisioned user, in order. |
| Activity.AssembleActivities | server/api/integrations/activity.get.ts:70-134 | The items are Slack, Teams, WhatsApp, user sync and token usage, in that order, each block in row order. |
| Activity.RecentActivity | server/api/integrations/activity.get.ts:70-137 | The feed is the newest-first selection of the assembled items. |
| Activity.NewestFeed | server/api/integrations/activity.get.ts:137 | The feed holds `min(5, n)` items, newest first, none older than an item left out. Together with the items left out, it forms the whole list. |
| Activity.NewestStable | server/api/integrations/activity.get.ts:137 | Items with equal timestamps keep their assembly order. |
| ProfileGate.GetToken | server/middleware/profile-completion.ts:6-16 | A `Bearer ` header gives the text up to the next space, possibly empty. Otherwise a non-empty cookie is used. |
| ProfileGate.UntilSpace | server/middleware/profile-completion.ts:9 | The field is the longest space-free prefix. |
| ProfileGate.BearerToken | server/middleware/profile-completion.ts:8-10 | `Bearer t` and `Bearer t rest` both yield `t`. |
| ProfileGate.EmptyBearerIgnoresCookie | server/middleware/profile-completion.ts:8-10 | A bare `Bearer ` header yields the empty token. The request passes even when a cookie is present. |
| ProfileGate.NoPrefixExempts | server/middleware/profile-completion.ts:30-32 | With an empty prefix list, no path is exempt by prefix. |
| ProfileGate.Gate | server/middleware/profile-completion.ts:47-76 | Non-API and allow-listed paths always pass. A 403 is returned exactly when an API path is not exempt, a non-empty token verifies to a truthy user id, and that user's profile is incomplete. |
| ProfileGate.UnauthenticatedPasses | server/middleware/profile-completion.ts:59-70 | With no token, a token that fails verification, or one without a user id, the request passes. |

## Left out

- The text cleaner `cleanText`, the embedding service `getEmbeddings` and cosine similarity are parameters: their code is not part of this model. Similarities are `real`, not floating point.
- `Object.entries` ordering of integer-like keys, and the special `__proto__` key, are not modelled. Maps keep the keys in first-seen order.
- The `Embedding.Greedy` clustering assumes one embedding per key, in key order. A service that returns fewer vectors is excluded by `EmbedsAll`.
- `Text.ToLower` folds ASCII letters only. JavaScript's Unicode case mapping is not modelled.
- String lengths count characters, not UTF-16 code units.
- A non-integer `maxGroups`, `retries` or `backoffMs` is not modelled.
- Zod's e-mail check and libphonenumber's phone check are parameters.
- Validations.SigninIssues, Validations.SignupIssues, Validations.ContactUsIssues, Validations.ParseBulkUser and Validations.ParseBusinessWhatsApp take every field as a string. Zod's "Required" and invalid-type issues for a missing or non-string field are not modelled.
- The Google sign-up and `createUser` schemas are not modelled.
- Timers and `startPolling` are not modelled in `ArtefactStore`. Polling is a boolean.
- `processSingleSummarization`, its completion callback, notifications and the 500 ms `setTimeout` are not modelled.
- The array and set reassignments made for reactivity are not modelled. Aliasing between store artefacts and other references is not modelled either.
- ArtefactStore.RoundedPercentage: computed exactly rather than with floating-point `Math.round`, so a floating-point edge case such as 29 of 200 may round differently.
- ArtefactStore.Store.AdjustPollingInterval: the restart of polling is reported as a flag, proved false, rather than restarting a timer.
- Db.Query: the back-off delay is returned as a list of waits, not slept. Pool connection and release are not modelled.
- `formatFileSize`, dayjs formatting and ISO timestamps are not modelled. Times are opaque strings or integers. The activity items' `time` text and invalid dates are not modelled.
- The check-exists `catch` block's mapping of errors to 503, 403 and 500 is not modelled.
- Authentication, JWT decoding and the organisation lookup (404 and 401) in the handlers are not modelled.
- The branch for an empty list after cleaning in check-exists cannot be reached and is not modelled. `NoValidNames` shows why.
- SQL row order is taken to be table order. `ORDER BY` and `LIMIT` in the activity queries, and the 24-hour window, are not modelled.
- Formidable's own size limit, array-valued fields and parse errors are not modelled.
- S3 storage, `readFileSync`, `processDocument`, the MIME lookup and `publicUrl` are not modelled.
- The update's columns other than category and timestamp are not modelled.
- Prototype keys of the extension table (`constructor`, `toString`) are not modelled.
- The Postgres `bigint` file size arriving as a string is not modelled. Sizes are integers.
