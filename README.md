# DBO explorer matching engine in Dafny

This project models the matching engine of the Digital Buildings Ontology (DBO)
explorer. The engine is the `OntologyWrapper` class of
`tools/explorer/lib/ontology_wrapper.py`. Given an ontology universe of entity
types in namespaces and a registry of defined fields, the wrapper provides four
queries:

- **Field list.** It lists the fields of a named entity type. Optional fields can
  be dropped, and the list is sorted by standard field name.
- **Match score.** It scores a concrete field set against a type's fields. The
  score is built from six counts: `ma`, `mr`, `tr`, `c`, `e` and `a`.
- **Ranking.** It ranks every non-abstract type that has fields by that score,
  in ascending order. It can filter by a general-type parent tag and keep only
  the matches above the wrapper's threshold, which starts at -0.5.
- **Field validity.** It says whether a field is defined in the registry.

Files and modules:

- `wrappers.dfy` (`Wrappers`): `Option` and `Result`. Python exceptions become
  `Err` values. `CollectOk` is a recursive function that stands for a loop
  appending one result per element and stopping at the first error.
- `strings.dfy` (`Strings`): Python's ordering of `str` values (by code point,
  with a proper prefix first), and `str.upper()` on ASCII letters.
- `sorting.dfy` (`Sorting`): Python's stable `sorted` and `if`-filtered list
  comprehensions, as functions, with lemmas. The lemmas show that a sort is
  ordered, a permutation and stable, that filtering keeps order and that
  filtering commutes with sorting.
- `model.dfy` (`Model`): the values the wrapper reads.
  - From the explorer's `lib.model`: `StandardField`, `EntityTypeField`,
    `StandardizeField` and `Match`.
  - From the validator's universe: entity types, type namespaces, the field
    registry, and type lookup.
  These come from code that is not part of this model, so they are plain data.
- `explorer.dfy` (`Explorer`): `ontology_wrapper.py` itself.
  - The pure parts are functions with lemmas: `_CalculateMatchScore` as
    `MatchScore`, and one specification function per query.
  - The class `OntologyWrapper` has the threshold field and the loop-based
    methods. Each method is proved equal to its specification function.
  - The nested loops of `GetEntityTypesFromFields` are split into helper
    methods to keep each proof small: `CandidateTypes` and `AppendCandidates`
    for the outer and inner loops over the namespaces, and `CreateMatches` for
    the loop that builds the match list.

The score is exact `real` arithmetic: `score = ((ma - e)/c)/2` when the type has
no required field, and `((ma - e)/c + (mr - a)/tr)/2` otherwise.

Behaviour of the code that the model keeps as written:

- Field lists are sorted by standard field name only, not by namespace and
  then name.
- The ranking is ascending, lowest score first, so the best matches are at the
  end.
- The best-fit list can equal the full list. It is a sub-sequence, not
  necessarily a strict subset.

## Model

| member | source | states |
|---|---|---|
| `Explorer.MatchScore` | tools/explorer/lib/ontology_wrapper.py:109-154 | the score fails with the empty-field-set error exactly when the concrete set is empty |
| `Explorer.CountsPartition` | tools/explorer/lib/ontology_wrapper.py:140-145 | `ma + e == c`, `mr + a == tr` and `mr <= ma` for every concrete and canonical set |
| `Explorer.MatchScoreBounds` | tools/explorer/lib/ontology_wrapper.py:113-152 | for a non-empty concrete set the score exists and lies in [-1, 1] |
| `Explorer.NoRequiredFieldsScore` | tools/explorer/lib/ontology_wrapper.py:149-150 | with no required canonical field the score is `((ma - e)/c)/2` and lies in [-1/2, 1/2] |
| `Explorer.PerfectMatchScore` | tools/explorer/lib/ontology_wrapper.py:140-152 | a concrete set equal to the standardized fields of an all-required type scores exactly 1 |
| `Explorer.TotalMismatchScore` | tools/explorer/lib/ontology_wrapper.py:140-152 | a concrete set disjoint from a non-empty all-required type scores exactly -1 |
| `Explorer.RoomExactMatch` | tools/explorer/lib/ontology_wrapper.py:140-152 | {temperature, occupancy} against a room type with those two required fields and optional humidity scores 1 |
| `Explorer.RoomPartialMatch` | tools/explorer/lib/ontology_wrapper.py:140-152 | {temperature, pressure} against the same room type scores 0 |
| `Explorer.FieldSet` | tools/explorer/lib/ontology_wrapper.py:184 | the set of the field list is empty exactly when the list is |
| `Explorer.MatchFor` | tools/explorer/lib/ontology_wrapper.py:156-192 | creating a match fails exactly for an empty field list, and a match carries the field list and the type |
| `Explorer.MatchesOfShape` | tools/explorer/lib/ontology_wrapper.py:224-226 | matching a list of types fails exactly when there is a type and no field, otherwise gives one match per type in order |
| `Wrappers.CollectOkShape` | tools/explorer/lib/ontology_wrapper.py:224-226 | a loop that raises on the first failing call succeeds exactly when every call does, then holds their results in order, and otherwise fails with the error of the first failing call, every earlier call having succeeded |
| `Explorer.MatchesInRange` | tools/explorer/lib/ontology_wrapper.py:224-226 | with a non-empty field list every match is for one of the types and scores in [-1, 1] |
| `Explorer.CandidateMembership` | tools/explorer/lib/ontology_wrapper.py:212-222 | a type is a candidate exactly when some namespace holds it, it is not abstract, it has fields and, when a general type is given, its upper-cased name is among the type's parent names |
| `Explorer.RankingFailsOnEmptyFields` | tools/explorer/lib/ontology_wrapper.py:212-238 | the ranking fails, with a ValueError, exactly when the field list is empty and there is at least one candidate; an empty field list with no candidate gives the empty ranking |
| `Explorer.RankingContents` | tools/explorer/lib/ontology_wrapper.py:224-232 | the full ranking is a permutation of one match per candidate, sorted by ascending score, each for the given field list with a score in [-1, 1] |
| `Explorer.BestFitIsFilteredRanking` | tools/explorer/lib/ontology_wrapper.py:233-238 | the best-fit ranking is the full ranking filtered by score above the threshold: an order-preserving sub-sequence, still ascending, holding every match above the threshold and only those |
| `Explorer.FieldsForTypeNameOutcomes` | tools/explorer/lib/ontology_wrapper.py:76-88 | the field list exists exactly when the type is found and expanded; an unknown type is a ValueError naming the global namespace or the given one; an unexpanded type is an Exception |
| `Explorer.UndefinedTypeMessagesDiffer` | tools/explorer/lib/ontology_wrapper.py:79-84 | the global-namespace message differs from the message for any named namespace |
| `Explorer.FieldsSortedPermutation` | tools/explorer/lib/ontology_wrapper.py:89-107 | a field list is sorted ascending by standard field name and is a permutation of the type's converted (and, if asked, required-only) fields |
| `Explorer.RequiredOnlyIsFiltered` | tools/explorer/lib/ontology_wrapper.py:98-107 | the required-only list is the full list with its optional fields removed, in the same order, and fails exactly as the full one does |
| `Explorer.FieldValiditySymmetry` | tools/explorer/lib/ontology_wrapper.py:245-249 | a field registered in its namespace is valid, and the same name asked for in a namespace where it is not registered is not |
| `Explorer.OntologyWrapper.constructor` | tools/explorer/lib/ontology_wrapper.py:45-55 | a new wrapper holds the universe and the threshold -0.5 |
| `Explorer.OntologyWrapper.GetFieldsForTypeName` | tools/explorer/lib/ontology_wrapper.py:57-107 | the append loop, filter and sort return exactly the field-list specification `FieldsForTypeName` |
| `Explorer.OntologyWrapper.CreateMatch` | tools/explorer/lib/ontology_wrapper.py:173-192 | the loop filling the canonical field set returns exactly `MatchFor` |
| `Explorer.OntologyWrapper.CandidateTypes` | tools/explorer/lib/ontology_wrapper.py:212-222 | the loop over namespaces returns exactly the candidate list `Candidates` |
| `Explorer.OntologyWrapper.AppendCandidates` | tools/explorer/lib/ontology_wrapper.py:215-222 | the loop over one namespace's types appends exactly its candidates, in order |
| `Explorer.OntologyWrapper.CreateMatches` | tools/explorer/lib/ontology_wrapper.py:224-226 | the loop creating matches returns exactly `MatchesOf`, including its error |
| `Explorer.OntologyWrapper.GetEntityTypesFromFields` | tools/explorer/lib/ontology_wrapper.py:194-238 | returns exactly the ranking specification `EntityTypesFromFields` with the wrapper's current threshold |
| `Explorer.OntologyWrapper.IsFieldValid` | tools/explorer/lib/ontology_wrapper.py:240-249 | a TypeError exactly for an argument that is not a StandardField, otherwise whether the registry defines the field's (namespace, name) |
| `Model.GetEntityType` | tools/explorer/lib/ontology_wrapper.py:76-77 | the lookup finds a type exactly when a namespace of that name holds a type of that name, and the type found has that name and is held by a namespace of the requested name |
| `Strings.LexLeTotal` | tools/explorer/lib/ontology_wrapper.py:102-105 | any two standard field names are ordered one way or the other |
| `Strings.LexLeTransitive` | tools/explorer/lib/ontology_wrapper.py:102-105 | the string order used as sort key is transitive |
| `Strings.Upper` | tools/explorer/lib/ontology_wrapper.py:219 | the upper-cased general type has the same length, each lower-case ASCII letter replaced by its own capital, and other characters unchanged |
| `Sorting.SortBy` | tools/explorer/lib/ontology_wrapper.py:228-232 | the sorted list is a permutation of its input |
| `Sorting.SortBySorted` | tools/explorer/lib/ontology_wrapper.py:228-232 | the sorted list is ordered by the key for any total preorder |
| `Sorting.SortByStable` | tools/explorer/lib/ontology_wrapper.py:102-105 | the sort is stable: the elements sharing any one key, such as fields differing only in increment, keep their input order |
| `Sorting.FilterSortBy` | tools/explorer/lib/ontology_wrapper.py:98-105 | filtering before or after the stable sort gives the same list |
| `Sorting.Filter` | tools/explorer/lib/ontology_wrapper.py:234-237 | every element of the comprehension passes the test and comes from the input, and every passing input element is in it |
| `Sorting.FilterCount` | tools/explorer/lib/ontology_wrapper.py:98-101 | the comprehension keeps every copy of a passing element and no copy of a failing one, so the filtered multiset is the input's restricted to the test |
| `Sorting.FilterSubsequence` | tools/explorer/lib/ontology_wrapper.py:234-237 | the filtered list is an order-preserving sub-sequence of its input |

## Left out

- The `EntityTypeManager` that `__init__` builds (line 54) is never used by these queries, so it is not modelled.
- Constructing the universe is not part of this model: YAML parsing, validation and inheritance expansion are represented only by the `inheritedFieldsExpanded` flag and the field entries of each type.
- `lib.model` is not part of this model. Standardization is modelled as the projection `(namespace, name, optional, increment)` to `(namespace, name, increment)`, and an EntityTypeField's standard field name is modelled as its name.
- `GetAllFields()` and `valid_types_map` are dictionaries. They are modelled as the sequences of their values in iteration order, because the wrapper uses only the values.
- `IsFieldDefined` is modelled as membership of a (namespace, field name) pair in the registry. Any global-namespace fallback inside the registry is not modelled.
- Strings.Upper: upper-cases ASCII letters only. Python's `str.upper()` also maps non-ASCII letters.
- The score is exact rational arithmetic. IEEE float rounding of the Python score is not modelled.
- Python's dynamic typing is not modelled beyond the `isinstance` check of `IsFieldValid`. Its other queries take typed arguments.
- The console front end `tools/explorer/lib/parse_input.py` (prompts, colored output) is not modelled. It only reads user input and calls these queries.
- The command-line tests and the unfinished connection-score stub elsewhere in the repository are not modelled. They contain no algorithm of this engine.
