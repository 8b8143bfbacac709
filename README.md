# RBAC subject lookup: a Dafny model of the filtering engine

The service answers one question: which RoleBindings in a Kubernetes
namespace grant a role to any of a list of subjects? A client posts a
namespace and a list of subject names. Each name is either a plain name
(exact match) or a regular expression. The service lists the namespace's
RoleBindings from the cluster and keeps the ones with a matching subject. It
sorts them by role name and answers in JSON or YAML.

This project models and proves the core of that service:

- `filters.dfy` (module `Filters`): the two filter kinds, exact name and
  regular expression, as one tagged value `RoleBindingFilter` with one match
  function `Matches`. A compiled regular expression is an arbitrary predicate
  on subject names.
- `enumerator.dfy` (module `Enumerator`): the enumerator's nested loops as a
  method, proved equal to the specification function `Filtered`. A binding is
  appended once for every filter that accepts it. The `continue` after the
  append only ends the current iteration of the loop over the filters.
- `api.dfy` (module `Api`): the request handler as a method over arrays. It
  runs the checks in order, fills the filter array by index, calls the
  enumerator and sorts the result in place. It returns the response and the
  call it made to the enumerator (`None` when it made none).
- `sorting.dfy` (module `Sorting`): the in-place sort by role name that
  stands for `sort.Slice`, and the facts about that order.
- `renderer.dfy` (module `Renderers`): the YAML/JSON choice.
- `go_strings.dfy` (module `GoStrings`): the Go string operations these
  rely on: `strings.ToLower`, `strings.Contains` and `<`.
- `k8s_rbac.dfy`, `wrappers.dfy`: the RoleBinding values, and Option/Result.
- `scenarios.dfy` (module `Scenarios`): the fixtures and the scenarios of
  `internal/rbac/rbac_test.go` and `internal/api/api_test.go`, proved
  against the model.

Outside collaborators become parameters:

- The cluster store's `RoleBindings(ns).List` is a function from namespace
  to bindings or error.
- Go's `regexp.Compile` is a function from expression text to an optional
  matcher.
- The enumerator that the handler holds is a function from namespace and
  filters to bindings or error. So the same contracts cover the real
  enumerator and the mocks of the tests.
- The decoded request body is an `Option<Request>`.

Two properties of the code shape the contracts:

- A binding is appended once per accepting filter, not deduplicated
  (`Enumerator.FilteredMultiplicity`, `Enumerator.TwoAcceptingFiltersKeepTwoCopies`).
- `sort.Slice` is not stable, so only sortedness by role name and permutation
  are stated. `Sorting.SortedPermutationUnique` shows the order is fully
  determined only when role names are distinct.

## Model

| member | source | states |
|---|---|---|
| `Filters.AcceptsName` | internal/rbac/filters.go:18 | the per-subject test of both filter kinds (`subject.Name == subjectName`, and `MatchString` at line 30); specified through `Filters.AnySubject` and `Filters.Matches` |
| `Filters.AnySubject` | internal/rbac/filters.go:17-22 | the subject loop with early return yields true iff some subject's name is accepted |
| `Filters.Matches` | internal/rbac/filters.go:15-35 | an exact filter matches iff some subject's `Name` equals the name; a pattern filter iff the matcher accepts some subject name; no subjects, no match |
| `Filters.MatchesDependsOnlyOnNames` | internal/rbac/filters.go:17-22 | two bindings with the same set of subject names get the same answer from every filter |
| `Filters.MatchesIgnoresSubjectOrder` | internal/rbac/filters.go:17-22 | permuting a binding's subjects never changes whether a filter matches |
| `Filters.MatchesIgnoresKindAndNamespace` | internal/rbac/filters.go:18 | changing a subject's `Kind` or `Namespace` never changes whether a filter matches |
| `Filters.MatchesAfterAddingSubject` | internal/rbac/filters.go:29-34 | after inserting a subject anywhere, a filter matches iff it matched before or accepts the new name (monotone: true never becomes false) |
| `Enumerator.MatchCount` | internal/rbac/rbac.go:47-52 | the number of accepting filters is at most the number of filters, and is zero iff no filter accepts the binding |
| `Enumerator.Copies` | internal/rbac/rbac.go:47-52 | the loop over the filters for one binding; `Enumerator.CopiesAreMatchCountCopies` and `Enumerator.CopiesMultiplicity` state that it holds the binding once per accepting filter and nothing else |
| `Enumerator.Filtered` | internal/rbac/rbac.go:46-53 | the loop over the listed bindings; `Enumerator.FilteredSnoc`, `Enumerator.FilteredDistributes`, `Enumerator.FilteredMultiplicity` and `Enumerator.FilteredMembership` state its order, multiplicities and membership |
| `Enumerator.EnumerateByRoleBindings` | internal/rbac/rbac.go:38-56 | a store error comes back wrapped with no bindings; otherwise the result is `Filtered` of the store listing |
| `Enumerator.FilteredSnoc` | internal/rbac/rbac.go:46-53 | listing one more binding appends exactly that binding's copies to the result |
| `Enumerator.FilteredDistributes` | internal/rbac/rbac.go:46-53 | record-major order: the result for a listing split in two is the first part's result followed by the second part's |
| `Enumerator.FilteredWithoutFilters` | internal/rbac/rbac.go:45-53 | with no filters the result is empty whatever the store lists |
| `Enumerator.CopiesAreMatchCountCopies` | internal/rbac/rbac.go:47-52 | the filter loop appends exactly `MatchCount` elements, each the binding itself |
| `Enumerator.CopiesMultiplicity` | internal/rbac/rbac.go:47-52 | the filter loop's output holds the binding `MatchCount` times and nothing else |
| `Enumerator.FilteredMultiplicity` | internal/rbac/rbac.go:46-53 | a binding listed m times and accepted by n filters occurs exactly m * n times in the result |
| `Enumerator.FilteredMembership` | internal/rbac/rbac.go:46-53 | a binding is in the result iff the store listed it and some filter accepts it, so the result holds only unmodified listed bindings |
| `Enumerator.TwoAcceptingFiltersKeepTwoCopies` | internal/rbac/rbac.go:49-50 | the `continue` does not stop the filter loop: two accepting filters keep a binding twice |
| `GoStrings.ToLower` | internal/api/renderer.go:13 | same length, every character lower-cased (ASCII letters only) |
| `GoStrings.Contains` | internal/api/renderer.go:14 | true iff the substring occurs at some position |
| `GoStrings.Less` | internal/api/api.go:85 | Go's `<` on strings: lexicographic, a proper prefix before its extensions; `GoStrings.LessAsymmetric`, `GoStrings.LessTransitive` and `GoStrings.LessTotal` make it a strict total order |
| `GoStrings.LessAsymmetric` | internal/api/api.go:85 | Go's `<` on strings never holds both ways |
| `GoStrings.LessTransitive` | internal/api/api.go:85 | Go's `<` on strings is transitive |
| `GoStrings.LessTotal` | internal/api/api.go:85 | of two different strings one is less than the other |
| `Sorting.RoleNameLess` | internal/api/api.go:84-86 | the less function given to `sort.Slice`, comparing `RoleRef.Name`; `Sorting.LessIsInOrder` and `Sorting.InOrderTransitive` give the order the sort establishes |
| `Sorting.InOrderTransitive` | internal/api/api.go:84-86 | "role name not less than" is transitive, so `sort.Slice`'s order is a total preorder |
| `Sorting.SortByRoleName` | internal/api/api.go:84-86 | after the in-place sort the array is ascending by `RoleRef.Name` and a permutation of its old contents |
| `Sorting.InsertAt` | internal/api/api.go:84-86 | one insertion step extends the sorted prefix by one element: `a[..i + 1]` ends sorted and a permutation of what it held, `a[i + 1..]` is unchanged, and the whole array keeps its contents |
| `Sorting.SortedPermutationUnique` | internal/api/api.go:84-86 | with distinct role names, two sorted permutations of the same bindings are equal |
| `Renderers.Renderer` | internal/api/renderer.go:12-23 | exactly one renderer, carrying the data unchanged; YAML iff "yaml" occurs in the content type in any ASCII case |
| `Renderers.LoweredYamlIsSpelledYaml` | internal/api/renderer.go:13-14 | "yaml" occurs at a position of the lower-cased content type exactly where the original spells it in any mix of ASCII cases |
| `Renderers.RendererIgnoresCase` | internal/api/renderer.go:13 | content types that agree after lower-casing choose the same renderer |
| `Renderers.MixedCaseYamlSelectsYaml` | internal/api/renderer.go:13-17 | "application/X-YAML" selects YAML |
| `Renderers.EmptyContentTypeSelectsJson` | internal/api/renderer.go:20-22 | an empty content type selects JSON |
| `Renderers.JsonContentTypeSelectsJson` | internal/api/renderer.go:20-22 | "application/json" selects JSON |
| `Api.IsExactSubjectName` | internal/api/api.go:15 | `^[0-9A-Za-z]+$` accepts exactly the non-empty strings of ASCII letters and digits |
| `Api.CompileSubjectName` | internal/api/api.go:62-73 | one turn of the loop over subject names: exact filter or compiled pattern, or the compile failure; `Api.PlainNameIsExact` and `Api.OtherNameIsPattern` state both branches |
| `Api.PlainNameIsExact` | internal/api/api.go:63-66 | a non-empty alphanumeric name becomes an exact filter on itself whatever the regular-expression engine does |
| `Api.OtherNameIsPattern` | internal/api/api.go:67-73 | any other name, the empty one included, becomes a pattern filter iff it compiles, and fails otherwise |
| `Api.RbacEnumerateByBindings` | internal/api/api.go:39-90 | parse, namespace, subject-name and compile failures give their 400 in that order without calling the enumerator; otherwise the enumerator gets the namespace unchanged and filter i built from name i; its error gives 500; its result gives 200 with the bindings sorted by role name as a permutation |
| `Scenarios.FixtureMatches` | internal/rbac/rbac_test.go:69-73 | each fixture is accepted by exactly one of the test filters |
| `Scenarios.NoSubject3Or4` | internal/rbac/rbac_test.go:72 | `subject[3,4]` does not accept "subject1" or "subject2" |
| `Scenarios.FilteredFixtures` | internal/rbac/rbac_test.go:53-80 | the three fixtures, listed in any order, come back once each in listing order |
| `Scenarios.CopiedOnceByOneOfThree` | internal/rbac/rbac.go:47-52 | a binding accepted by exactly one of three filters is appended once |
| `Scenarios.EnumerateFixtures` | internal/rbac/rbac_test.go:53-80 | the enumerator returns all three fixtures in store order |
| `Scenarios.EnumerateWithFailingStore` | internal/rbac/rbac_test.go:82-103 | a failing store makes the enumerator fail |
| `Scenarios.TestNamesCompile` | internal/api/api_test.go:62 | the test's subject names compile to two exact filters and one pattern filter, in order |
| `Scenarios.OnlyOrderIsOrdered` | internal/api/api_test.go:69-74 | any sorted permutation of the fixtures is role1, role2, role3 |
| `Scenarios.HandleOutOfOrderFixtures` | internal/api/api_test.go:82-175 | a mocked enumerator returning the fixtures out of order gives 200 with them ordered by role name |
| `Scenarios.HandleWithFakeStore` | internal/api/api_test.go:43-80 | with the real enumerator over a store listing role 3, 1, 2, the response is 200 with role 1, 2, 3 |
| `Scenarios.HandleEnumeratorError` | internal/api/api_test.go:176-200 | an enumerator error gives 500 "could not retrieve role bindings" |
| `Scenarios.HandleInvalidExpression` | internal/api/api_test.go:201-219 | `[[` gives 400 "invalid regular expression or subject name" and no enumeration |
| `Scenarios.HandleIncompleteRequests` | internal/api/api_test.go:220-276 | a bad body, an empty namespace and an empty subject list each give their own 400 |

## Left out

- Process bootstrap in cmd/main.go: configuration, credentials, logging, the
  HTTP server and its shutdown. This is plumbing and concurrency.
- The gin transport. Request decoding (`c.Bind`) is given as its outcome,
  and `c.Render` as the status and renderer pair it is handed. Routing is
  not modelled. `c.ContentType()`, which drops parameters after `;`, is
  given as its result.
- Go's regular-expression engine. Compilation is a function parameter that
  may fail, and `MatchString` is an arbitrary predicate. No regex syntax or
  matching semantics is modelled.
- The Kubernetes client: `RoleBindings(ns).List` is a function parameter.
  List options, paging and the unused `Roles` accessor are not modelled.
- The constructors `rbac.New` and `api.New` only store their argument. The
  model passes the store and the enumerator as parameters instead.
- `namespaceRegexp` (internal/api/api.go:14) is declared but never applied.
  The handler contract states that the namespace reaches the enumerator
  unchanged.
- The `Health` handler is not part of this model.
- Fields the service never reads: a `Subject`'s `APIGroup`, and a binding's
  `TypeMeta` and every `ObjectMeta` field but name and namespace (labels,
  annotations, UID, resource version, ...). Two bindings that differ only
  there are one value in the model, so the multiset and membership
  statements about `Enumerator.Filtered` compare bindings more coarsely than
  Go would.
- GoStrings.ToLower: lower-cases ASCII letters only, where Go's
  `strings.ToLower` is Unicode-aware. No non-ASCII letter lower-cases to
  'y', 'a', 'm' or 'l', so the YAML/JSON choice is unaffected.
- Strings are sequences of characters rather than of UTF-8 bytes. For valid
  UTF-8, Go's byte-wise `<` orders strings as code points do, which is what
  `GoStrings.Less` does.
- Sorting.SortByRoleName: an insertion sort stands for `sort.Slice`'s
  pattern-defeating quicksort. Only what `sort.Slice` promises (sorted and a
  permutation) is stated, so the order of bindings with equal role names is
  left open, as in the source.
- Error wrapping: the enumerator's `fmt.Errorf` text is represented by
  `RetrievalFailed(cause)` with the store's cause.
- Scenarios.TestCompile knows only the expressions the tests use:
  `subject[3,4]` compiles and everything else, `[[` included, does not.
