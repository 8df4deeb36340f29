# Me-API Playground: a Dafny model of the profile API

The Me-API Playground stores developer profiles (name, email, education,
skills, projects, work history, links) in one MongoDB collection behind an
Express router, and a React client edits them in a dialog. This project
models three parts of it:

- **The profile routes** (`ProfileRoutes`, `ProjectIndex`, `TopSkills`,
  `Search`). The collection is the class `ProfileStore`: its documents in
  insertion order, plus a counter that stands in for the clock behind ids
  and timestamps.
  - POST `/profile` checks the email and then creates the profile.
  - PUT `/profile` performs a `$set` on the first document that holds the trimmed email.
  - GET `/profile` lists the profiles newest first, each cut down to its seven fields.
  - GET `/projects` flattens every profile's projects, optionally filtered by one skill.
  - GET `/skills/top` counts the skills, sorts the counts stably in descending order and keeps five.
  - GET `/search` does a case-insensitive substring search.

  Every write route is a function from the old collection to an `Outcome`
  (the answer, the new documents, the new clock). The store's methods are
  proved equal to that function, and the properties are proved about the
  function.
- **The schema** (`Schema`). It covers `trim` on every string path, `required`,
  the unique indexes on `email`, `projects.title` and `work.company`, and
  `timestamps`. Together they give the store's invariant `Consistent`: unique
  keys across distinct documents, every string trimmed, and stamps increasing
  in insertion order. Create and update are proved to keep it.
- **The client's form editors** (`ProfileForm`). These are `setField`, the
  add/update/remove helpers for skills, projects and work entries, and the
  guard in `onSubmit`. Each one is a function from the current form to the
  next.

Behaviour worth knowing, as the code does it:

- Create looks the email up after the schema's `trim` setter has run on the
  query value. It then runs the setters and validators and finally checks the
  unique indexes. The validators and the indexes refuse with 500; an email
  that is already stored gets 409. A body without an email leaves the filter
  of `findOne` empty, and the empty filter matches any document: such a POST
  gets 409 whenever the collection holds a profile, and 500 from `required`
  when it is empty.
- Update runs the setters but not the validators. Mongoose's `updateOne`
  leaves them off by default. An update can therefore store a project without
  a title or a work entry without a company. The unique indexes still apply,
  and a clash gives 500.
- Update looks the profile up by `String(email).trim()`. A missing email
  becomes the key `"undefined"`. The `$set` writes that same trimmed email
  back, so an update can never change a profile's email (`UpdateKeepsEmail`).
- When no profile matches, update changes nothing and still answers success.
- Search returns whole documents, id and timestamps included, in scan order.
  The list route returns only the seven fields, newest first.
- The client never sends an empty query to search: it asks for the full list
  instead (`client/src/App.tsx:37-40`). The server itself answers an empty
  query with every profile (`Search.EmptyQueryReturnsAll`).

## Model

| member | source | states |
|---|---|---|
| Text.Trim | server/src/models/profile.schema.ts:17-20 | the `trim` setter: the result is the input with an all-white-space prefix and suffix cut off, has no white space at either end, is empty exactly when the input is all white space, and leaves a trimmed string as it is |
| Text.TrimEdges | server/src/models/profile.schema.ts:17-20 | the two passes of `trim` leave the input with an all-white-space prefix and an all-white-space suffix cut off |
| Text.TrimStart | server/src/models/profile.schema.ts:17-20 | the result is a suffix of the input that does not start with white space, and the part dropped is all white space |
| Text.TrimEnd | server/src/models/profile.schema.ts:17-20 | the result is a prefix of the input that does not end with white space, and the part dropped is all white space |
| Text.TrimIdempotent | server/src/models/profile.schema.ts:17-20 | trimming a stored value again changes nothing |
| Text.Lower | server/src/routes.ts:100 | `toLowerCase`: the same length, each ASCII capital replaced by its small letter and every other character kept |
| Text.Contains | server/src/routes.ts:103-110 | `includes`: the query is a prefix of the string or of one of its suffixes |
| Text.ContainsIffOccursAt | server/src/routes.ts:104-112 | `includes` holds exactly when the query occurs at some position of the string |
| Text.ContainsLower | server/src/routes.ts:101-112 | a substring match survives lower-casing both sides, so the search ignores case |
| Schema.CastProjects | server/src/models/profile.schema.ts:9-14 | the setters keep every project in its place: its title, description, link and each skill are the input's, trimmed, and the result is trimmed |
| Schema.CastWorks | server/src/models/profile.schema.ts:22-25 | the setters keep every work entry in its place: its role and company are the input's, trimmed |
| Schema.CastBody | server/src/models/profile.schema.ts:3-27 | the setters keep the name and the email present exactly when the body has them |
| Schema.CastBodyValues | server/src/models/profile.schema.ts:3-27 | each path of the cast body holds the body's value at that path with its strings trimmed, and an absent path stays absent |
| Schema.CastBodyTrimmed | server/src/models/profile.schema.ts:3-27 | after the setters run, every string of the body is trimmed |
| Schema.CastTrimmedBody | server/src/models/profile.schema.ts:3-27 | the setters leave a body that is already trimmed unchanged |
| Schema.TrimEachTrimmed | server/src/models/profile.schema.ts:20 | trimming an array of trimmed strings leaves it unchanged |
| Schema.RequiredIffFilled | server/src/models/profile.schema.ts:10-24 | `required` accepts a body exactly when the name and email hold a non-space character, every project title does, and every work role and company does |
| Schema.TitlesGivenIffFilled | server/src/models/profile.schema.ts:10 | every cast project has a non-empty title exactly when every input title holds a non-space character |
| Schema.WorkGivenIffFilled | server/src/models/profile.schema.ts:23-24 | every cast work entry has a non-empty role and company exactly when every input role and company holds a non-space character |
| Schema.GivenIffFilled | server/src/models/profile.schema.ts:17 | after trimming, a required path is non-empty exactly when it held a non-space character |
| Schema.Required | server/src/models/profile.schema.ts:10-24 | `required` on a cast body: name and email present and non-empty, every project title and every work role and company too |
| Schema.NewProfile | server/src/routes.ts:11-19 | create builds the profile from the seven fields: the name, email, education and links as given, and each array path as given or empty when absent |
| Schema.ApplySet | server/src/routes.ts:31 | `$set`: each path the update carries overwrites the stored one, and every other path stays |
| Schema.ApplySetIdempotent | server/src/routes.ts:31 | applying the same update document twice gives the same profile as applying it once |
| Schema.ApplySetFullBodyIsNew | server/src/routes.ts:31 | an update that carries all seven paths replaces the profile with the one create would build |
| Schema.ApplySetEmptyBody | server/src/routes.ts:31 | an update that carries no path leaves the profile unchanged |
| Schema.ApplySetKeepsTrimmed | server/src/models/profile.schema.ts:3-27 | a trimmed profile updated with a cast body stays trimmed |
| Schema.NewProfileTrimmed | server/src/routes.ts:11-19 | the profile create builds from a cast body is stored trimmed |
| Schema.Compatible | server/src/models/profile.schema.ts:10-24 | the unique indexes allow two profiles side by side: different emails, no shared project title, no shared work company |
| Schema.FitsBeside | server/src/models/profile.schema.ts:10-24 | the unique indexes on `email`, `projects.title` and `work.company`: the profile is compatible with every stored document except the one being replaced |
| Schema.Consistent | server/src/models/profile.schema.ts:3-27 | the store's invariant: unique keys across distinct documents, stamps before the clock and increasing in insertion order, every string trimmed |
| Schema.AppendKeepsConsistent | server/src/models/profile.schema.ts:10-27 | a new document the unique indexes admit, stamped with the clock, keeps the keys unique, the strings trimmed and the stamps ordered |
| Schema.ReplaceKeepsConsistent | server/src/models/profile.schema.ts:10-27 | rewriting a document the indexes admit keeps its id and `createdAt`, refreshes `updatedAt`, and keeps the collection consistent |
| ProfileRoutes.FindByEmail | server/src/routes.ts:9 | `findOne` finds the first document holding the email, and finds none exactly when no document holds it |
| ProfileRoutes.UpdateKey | server/src/routes.ts:30 | `String(data.email).trim()`: a trimmed key, the string `"undefined"` when the body has no email, otherwise the email with white space cut from both ends |
| ProfileRoutes.Admissible | server/src/routes.ts:11-19 | what `create` lets through after the lookup: the `required` validators hold on the cast body and the unique indexes admit the new profile beside every stored one |
| ProfileRoutes.Taken | server/src/routes.ts:9-10 | `findOne` finds a document: one holds the trimmed email, or the email is absent and the store is not empty |
| ProfileRoutes.FindOne | server/src/routes.ts:9-10 | the lookup of create finds a position in the store exactly when the email is taken |
| ProfileRoutes.CreateStep | server/src/routes.ts:6-25 | POST `/profile` as a function of the store: 409 when taken, 500 when `required` or an index refuses, otherwise one document appended with the clock as id and stamps |
| ProfileRoutes.UpdateStep | server/src/routes.ts:27-38 | PUT `/profile` as a function of the store: the first document holding the key gets `$set` and a fresh `updatedAt`, 500 when an index refuses, success and no change when none matches |
| ProfileRoutes.UpdateKeepsEmail | server/src/routes.ts:30-31 | the update key is also the email written by `$set`, so the matched profile keeps its email |
| ProfileRoutes.CreateEffect | server/src/routes.ts:9-20 | a failed create leaves the store unchanged. A successful one appends exactly one document stamped with the clock, holding the body's seven fields trimmed, and leaves every stored document as it was |
| ProfileRoutes.CreateResponses | server/src/routes.ts:9-23 | 409 exactly when a stored profile holds the trimmed email or the email is absent from a non-empty store. 201 exactly when the email is not taken, the name, the email, every project title and every work role and company hold a non-space character, and the unique indexes admit the new profile. 500 otherwise |
| ProfileRoutes.UpdateEffect | server/src/routes.ts:30-32 | at most one document changes: one holding the trimmed key. It gets the body's present paths and a new `updatedAt` and keeps its id and `createdAt`. With no match the store is unchanged and the answer is success |
| ProfileRoutes.UpdateFails | server/src/routes.ts:30-37 | 500 exactly when some document holds the key and the unique indexes refuse the first such document's updated profile |
| ProfileRoutes.UpdateWrites | server/src/routes.ts:30-32 | when the indexes admit it, the first document holding the key is rewritten with the body's paths, its id and `createdAt` and a fresh `updatedAt`, the clock advances, and the answer is success |
| ProfileRoutes.FirstHolderFound | server/src/routes.ts:31 | `updateOne` picks the first document holding the key |
| ProfileRoutes.CreateStepConsistent | server/src/routes.ts:6-25 | create keeps the store's invariant |
| ProfileRoutes.UpdateStepConsistent | server/src/routes.ts:27-38 | update keeps the store's invariant |
| ProfileRoutes.SetKeepsConsistent | server/src/routes.ts:31 | writing a trimmed body the indexes admit into one document keeps the store's invariant |
| ProfileRoutes.ProfileStore.constructor | server/src/models/profile.schema.ts:29 | a new collection is empty and consistent |
| ProfileRoutes.ProfileStore.Create | server/src/routes.ts:6-25 | POST `/profile` on the store keeps its invariant and has the effect and answer of `CreateStep` |
| ProfileRoutes.ProfileStore.Update | server/src/routes.ts:27-38 | PUT `/profile` on the store keeps its invariant and has the effect and answer of `UpdateStep` |
| ProfileRoutes.CreateTwice | server/src/routes.ts:9-19 | on any store, once a create has stored a profile, the same create again gets 409 and changes neither the documents nor the clock, and the new document is the only one holding its email |
| ProfileRoutes.NewestFirst | server/src/routes.ts:42 | position `i` of the newest-first order holds the `i`-th most recently stored document |
| ProfileRoutes.NewestFirstIsSorted | server/src/routes.ts:42 | on a consistent store the newest-first order is sorted by strictly descending `createdAt` |
| ProfileRoutes.NewestFirstPermutes | server/src/routes.ts:42 | the newest-first order holds every stored document exactly as often as the store does |
| ProfileRoutes.CreatedDescUnique | server/src/routes.ts:42 | two `createdAt`-descending orders of the same documents are equal, so the sort has one answer |
| ProfileRoutes.Views | server/src/routes.ts:45-53 | each document is cut down to its seven fields, with nothing dropped or reordered |
| ProfileRoutes.ListProfiles | server/src/routes.ts:42-53 | the list has one entry per stored document, the newest first, each without id or timestamps; an empty store gives an empty list |
| ProfileRoutes.ListIsSortedProjection | server/src/routes.ts:42-53 | the list is the projection of the database's `createdAt`-descending sort of the store |
| ProjectIndex.AllProjects | server/src/routes.ts:66-67 | every scanned profile's projects, profile after profile |
| ProjectIndex.Keep | server/src/routes.ts:68 | the filter test: no filter, an empty one, or a skill list that holds the filter exactly |
| ProjectIndex.ProjectsFor | server/src/routes.ts:63-73 | the answer: the flattened projects the filter keeps |
| ProjectIndex.Filter | server/src/routes.ts:68 | a project is kept exactly when the filter is absent or empty or the project's skills contain it |
| ProjectIndex.ListProjects | server/src/routes.ts:61-73 | the two nested loops produce the flattened projects, filtered, in scan order |
| ProjectIndex.FilterAppend | server/src/routes.ts:66-72 | filtering a concatenation filters each part, so the kept projects stay in order |
| ProjectIndex.AllProjectsAppend | server/src/routes.ts:66-67 | flattening a concatenation of profiles concatenates their projects |
| ProjectIndex.ProjectsForAppend | server/src/routes.ts:64-72 | the answer for the profiles scanned in two parts is the answer for the first part followed by the answer for the second |
| ProjectIndex.InAllProjects | server/src/routes.ts:66-67 | a project is in the flattened list exactly when some scanned profile holds it |
| ProjectIndex.UnfilteredIsEverything | server/src/routes.ts:68 | with the filter absent or empty, every project is returned, profile after profile |
| ProjectIndex.FilteredMembership | server/src/routes.ts:68 | with a non-empty filter, a project is returned exactly when a scanned profile holds it and its skills contain the exact filter string |
| TopSkills.AllSkills | server/src/routes.ts:84-85 | every scanned profile's skills, profile after profile, repeats included |
| TopSkills.Count | server/src/routes.ts:86 | the value the object ends with for a skill: its number of occurrences |
| TopSkills.FirstSeen | server/src/routes.ts:83-88 | the object's keys: every visited skill exactly once, and of any two keys the earlier one occurs in the skills before the later one first does |
| TopSkills.FirstSeenSnocOrder | server/src/routes.ts:86 | one more skill keeps the first-seen order of the earlier keys and puts a new key after all of them |
| TopSkills.Entries | server/src/routes.ts:89 | `Object.entries`: each key paired with its number of occurrences, repeats within a profile included |
| TopSkills.CountSkills | server/src/routes.ts:84-88 | after the loops, the object's keys are the skills in order of first appearance and each value is that skill's number of occurrences |
| TopSkills.CountInto | server/src/routes.ts:85-87 | counting one profile's skills adds each new key at the end and raises each skill's count by its number of occurrences |
| TopSkills.CountedSnoc | server/src/routes.ts:86 | one counting step reads the skill's current count, adds `s` as a key when it is new and raises its count by one |
| TopSkills.TalliedSnoc | server/src/routes.ts:86 | `(skillCount[s] \|\| 0) + 1` is the skill's count after one more occurrence, and every other count is kept |
| TopSkills.TopSkills | server/src/routes.ts:80-95 | the handler answers `TopOf` of the visited skills |
| TopSkills.Insert | server/src/routes.ts:89 | inserting an entry adds exactly that entry: the result is the input plus that entry, as multisets |
| TopSkills.InsertSorted | server/src/routes.ts:89 | inserting into a list sorted by descending count keeps it sorted |
| TopSkills.InsertDistinct | server/src/routes.ts:89 | inserting an entry for a new skill keeps the skills distinct |
| TopSkills.SortByCount | server/src/routes.ts:89 | the sort is a permutation: the result holds exactly the entries it is given, each as often |
| TopSkills.SortSortedDistinct | server/src/routes.ts:89 | the sort orders by descending count and keeps distinct skills distinct |
| TopSkills.WithCount | server/src/routes.ts:89 | the entries of one count, in their order |
| TopSkills.InsertStable | server/src/routes.ts:89 | insertion puts an entry after all entries of its count and reorders no entries of equal count |
| TopSkills.SortStable | server/src/routes.ts:89 | the sort is stable: for every count, the entries with that count keep their order |
| TopSkills.WithCountPrefix | server/src/routes.ts:89 | for each count, the entries of a prefix are a prefix of the entries of the whole list |
| TopSkills.FirstSeenCount | server/src/routes.ts:83-88 | the object has as many keys as there are distinct visited skills |
| TopSkills.SortedEntries | server/src/routes.ts:83-89 | the sorted entries hold every visited skill once, each with its count, in descending order of count |
| TopSkills.Names | server/src/routes.ts:89 | `.map(([skill]) => skill)`: one name per entry, in the entries' order, each the entry's skill |
| TopSkills.TopEntries | server/src/routes.ts:89 | the sorted entries cut to the first five |
| TopSkills.TopOf | server/src/routes.ts:89 | the answer: the names of the first five sorted entries |
| TopSkills.TopShape | server/src/routes.ts:89 | the answer has min(5, number of distinct skills) names, none twice, each a visited skill |
| TopSkills.TopIsPrefix | server/src/routes.ts:89 | the answer names the first entries of the sorted list |
| TopSkills.TopNonIncreasing | server/src/routes.ts:89 | counts never grow along the answer |
| TopSkills.TopOmittedNotMore | server/src/routes.ts:89 | any visited skill missing from the answer means the answer is full, and that skill occurs no more often than the last one returned |
| TopSkills.PrefixOmitsNoLarger | server/src/routes.ts:89 | an entry of a sorted list whose skill is not among the first names implies five names and a count no higher than the fifth |
| TopSkills.TopTieBreak | server/src/routes.ts:83-89 | for every count, the answer's skills with that count are the first-seen skills with that count, in first-seen order |
| Search.ProjectMatches | server/src/routes.ts:108-111 | the project test: a present, non-empty title or description whose lower-cased text contains the query |
| Search.Matches | server/src/routes.ts:102-113 | the filter callback: the lower-cased name, email or a skill contains the query, or a project matches |
| Search.Matching | server/src/routes.ts:102-113 | a document is in the answer exactly when it is scanned and matches |
| Search.SearchProfiles | server/src/routes.ts:97-119 | a missing `q` gives 500. Otherwise a document is returned exactly when the lower-cased query occurs in its lower-cased name, email, a skill, or a non-empty project title or description |
| Search.MatchingAppend | server/src/routes.ts:102 | searching a concatenation searches each part, so the answer keeps scan order |
| Search.EmptyQueryReturnsAll | server/src/routes.ts:104 | the empty query returns every scanned document in order, since every name contains it |
| Search.QueryCaseIgnored | server/src/routes.ts:101 | two queries that differ only in letter case give the same answer |
| Search.NameHitIsFound | server/src/routes.ts:101-104 | a profile whose name contains the query, with matching letter case, is returned |
| Search.DescriptionHitIsFound | server/src/routes.ts:108-111 | a profile with a non-empty project description that contains the query is returned |
| Search.MatchingDistinct | server/src/routes.ts:102 | filtering a list without repeats gives a list without repeats |
| Search.StoredDistinct | server/src/models/profile.schema.ts:18 | a consistent store holds no document twice, so search returns no profile twice |
| ProfileForm.SetField | client/src/components/ProfileModal.tsx:34-36 | `setField(k, v)`: key `k` then holds `v` and every other key is unchanged |
| ProfileForm.SetFieldGet | client/src/components/ProfileModal.tsx:34-36 | writing back the value a key already holds changes nothing |
| ProfileForm.SetFieldTwice | client/src/components/ProfileModal.tsx:34-36 | a later write to a key replaces an earlier one |
| ProfileForm.SetAt | client/src/components/ProfileModal.tsx:38-42 | an index in range is overwritten and every other position kept; the index just past the end appends; a negative index leaves the elements unchanged |
| ProfileForm.RemoveAt | client/src/components/ProfileModal.tsx:45-49 | removing an index in range drops one element; any other index drops none |
| ProfileForm.RemoveAtInRange | client/src/components/ProfileModal.tsx:45-49 | removing index `i` in range gives `s[..i] + s[i+1..]` |
| ProfileForm.RemoveAtOutOfRange | client/src/components/ProfileModal.tsx:45-49 | removing an index out of range keeps the list |
| ProfileForm.RemoveAfterAppend | client/src/components/ProfileModal.tsx:44-49 | removing the entry just appended gives back the list |
| ProfileForm.MergeProject | client/src/components/ProfileModal.tsx:58 | the spread `{ ...project, ...partial }`: each key the partial holds wins, the others stay |
| ProfileForm.MergeWork | client/src/components/ProfileModal.tsx:71 | the same spread for work entries |
| ProfileForm.PatchProjectAt | client/src/components/ProfileModal.tsx:56-60 | the updated project list: in range, position `i` becomes the old project merged with the patch and every other position stays; at the end, a blank project merged with the patch is appended |
| ProfileForm.PatchWorkAt | client/src/components/ProfileModal.tsx:69-72 | the same for the work list: in range, entry `i` becomes the old entry merged with the patch and the others stay; at the end, a blank entry merged with the patch is appended |
| ProfileForm.MergeProjectLaws | client/src/components/ProfileModal.tsx:58 | an empty partial changes nothing, a repeated one changes nothing more, two in a row act as one, and a full one replaces the entry |
| ProfileForm.MergeWorkLaws | client/src/components/ProfileModal.tsx:71 | the same laws for work entries |
| ProfileForm.UpdateSkill | client/src/components/ProfileModal.tsx:38-42 | with `i` in range, the skills keep their length, position `i` holds the new value, and every other position and form key is unchanged |
| ProfileForm.AddSkill | client/src/components/ProfileModal.tsx:44 | exactly one empty skill is appended after the unchanged existing ones, and a missing list counts as empty |
| ProfileForm.RemoveSkill | client/src/components/ProfileModal.tsx:45-49 | the skills lose position `i`, and every other form key is unchanged |
| ProfileForm.AddProject | client/src/components/ProfileModal.tsx:51-55 | one blank project is appended after the unchanged existing ones |
| ProfileForm.UpdateProject | client/src/components/ProfileModal.tsx:56-60 | with `i` in range, project `i` takes the keys the partial holds and keeps its others, and every other project and form key is unchanged |
| ProfileForm.RemoveProject | client/src/components/ProfileModal.tsx:61-65 | the projects lose position `i`, and every other form key is unchanged |
| ProfileForm.AddWork | client/src/components/ProfileModal.tsx:67-68 | one blank work entry is appended after the unchanged existing ones |
| ProfileForm.UpdateWork | client/src/components/ProfileModal.tsx:69-73 | with `i` in range, entry `i` takes the keys the partial holds and keeps its others, and every other entry and form key is unchanged |
| ProfileForm.RemoveWork | client/src/components/ProfileModal.tsx:74-78 | the work entries lose position `i`, and every other form key is unchanged |
| ProfileForm.RemoveSkillUndoesAdd | client/src/components/ProfileModal.tsx:44-49 | removing the skill just added gives back the form |
| ProfileForm.RemoveProjectUndoesAdd | client/src/components/ProfileModal.tsx:51-65 | removing the project just added gives back the form |
| ProfileForm.RemoveWorkUndoesAdd | client/src/components/ProfileModal.tsx:67-78 | removing the work entry just added gives back the form |
| ProfileForm.RemoveSkillInRange | client/src/components/ProfileModal.tsx:45-49 | with `i` in range the skills become `s[..i] + s[i+1..]` |
| ProfileForm.RemoveProjectInRange | client/src/components/ProfileModal.tsx:61-65 | with `i` in range the projects become `s[..i] + s[i+1..]` |
| ProfileForm.RemoveWorkInRange | client/src/components/ProfileModal.tsx:74-78 | with `i` in range the work entries become `s[..i] + s[i+1..]` |
| ProfileForm.UpdateProjectIdempotent | client/src/components/ProfileModal.tsx:56-60 | applying the same partial to the same project twice is applying it once |
| ProfileForm.Submit | client/src/components/ProfileModal.tsx:80-96 | the form reaches `onSave` exactly when its name and email are non-empty, and then unchanged. Otherwise the "required" alert shows. A failed save shows the "Save failed" alert. The saving flag is raised first and lowered last |
| ProfileForm.EmptyFormNotSent | client/src/components/ProfileModal.tsx:84-88 | the blank form of a new profile is never sent |

## Left out

- Express, the HTTP status codes and the JSON envelopes: each answer is a
  `Result` with `Conflict` standing for 409 and `Internal` for 500.
- `server/src/index.ts` (server start-up, CORS, database connection) and
  `client/src/api.ts` hold no logic. Both are out of this model.
- Concurrency: each route runs as one atomic step. The race between
  `findOne` and `create` is not modelled.
- Real ObjectIds and clock time: a counter gives the id, `createdAt` and
  `updatedAt`.
- Unique-index corner cases: two documents that both lack a title or a
  company, and duplicates inside one document's arrays. Uniqueness is modelled
  over present values across distinct documents. A profile whose `projects` or
  `work` array is empty also has no value at `projects.title` or
  `work.company`. A unique index that is not sparse indexes a missing value as
  null, so the store may refuse a second such create with 500, while the model
  (`FitsBeside`, `CreateResponses`) admits it.
- Create looks the email up with the setter applied to the query value. If
  the query were compared untrimmed, some duplicates would get 500 from the
  unique index instead of 409, and the store would be unchanged either way.
- Each entry of `work` gets an automatic `_id` (its sub-schema does not turn
  it off, unlike links and projects). The model's `Work` has no identifier, so
  these ids are absent from stored profiles and from the answers of GET
  `/profile` and `/search`.
- The version key `__v` that the store adds to every document, and so to the
  answers of POST `/profile` and of `/search`: `Document` has no such field.
- Empty sub-documents: with the store's default minimising, the empty `links`
  object that the blank form sends is probably not stored at all, while the
  model stores links with all three paths absent.
- JSON `null` versus an absent key: both are an absent path (`None`).
- Values of the wrong type in a request body (a number for a name, an array
  query string): bodies are well typed.
- Text.Lower: `toLowerCase` is modelled for ASCII letters only. The full
  Unicode case mapping is left out.
- TopSkills.TopSkills: assumes ordinary skill names as object keys. In
  JavaScript, integer-like keys such as "2024" come first in numeric order,
  and names like `__proto__` collide with the object prototype.
- ProfileForm.SetAt: requires the index to be at most the list's length.
  JavaScript pads an array with holes for larger indices, and a `seq` cannot
  hold holes. The dialog only passes indices of entries it renders. The same
  bound holds for UpdateSkill, UpdateProject and UpdateWork.
- ProfileForm.Submit: the save callback's success or failure is a parameter.
  The HTTP call behind it is not modelled.
- `_id`, `createdAt` and `updatedAt` in the client's form, the JSX markup,
  `Navbar`, `ProfileCard` and `App` (fetching and React state) are
  presentation and are not part of this model.
