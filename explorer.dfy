/** The DBO explorer's `OntologyWrapper`: the match score of a concrete field
    set against an entity type, the ranking of all entity types by that score,
    the field list of a named type, and field validity.

    The pure parts (the score, and the specification of each query) are
    functions with lemmas; the class keeps the session's threshold and runs
    the list-building loops, each proved equal to its specification. */
module Explorer {
  import opened Wrappers
  import opened Strings
  import opened Sorting
  import opened Model

  /** The Python exception class an error is raised as. */
  datatype ExceptionClass = ValueError | Exception | TypeError

  datatype Error =
    | UndefinedType(typename: string, namespace: string)
    | InheritanceNotExpanded
    | EmptyConcreteFields
    | NotAStandardField(typeName: string)
  {
    function Class(): ExceptionClass
    {
      match this
      case UndefinedType(_, _) => ValueError
      case InheritanceNotExpanded => Exception
      case EmptyConcreteFields => ValueError
      case NotAStandardField(_) => TypeError
    }

    function Message(): string
    {
      match this
      case UndefinedType(typename, namespace) =>
        if namespace == "" then "\n" + typename + " is not defined in global namespace."
        else "\n" + typename + " is not defined in namespace: " + namespace + "."
      case InheritanceNotExpanded =>
        "Inherited fields must be expanded to query fields.\n"
        + "Run NamespaceValidator on your ConfigUniverse to expand fields."
      case EmptyConcreteFields => "Concrete field set cannot be empty."
      case NotAStandardField(typeName) =>
        "Field argument must be a StandardField object.\n" + "You provided a " + typeName + " object."
    }
  }

  /** The argument of `IsFieldValid`, which may be any Python object. */
  datatype Argument = StandardFieldArg(field: StandardField) | OtherObject(typeName: string)

  /** The threshold a new wrapper starts with. */
  const DefaultMatchScoreThreshold: real := -0.5

  // ---------------------------------------------------------------------
  // Match score

  /** The canonical fields, standardized. */
  function StandardCanonical(canonical: set<EntityTypeField>): set<StandardField>
  {
    set f | f in canonical :: Standardize(f)
  }

  /** The required canonical fields, standardized. */
  function RequiredCanonical(canonical: set<EntityTypeField>): set<StandardField>
  {
    set f | f in canonical && IsRequired(f) :: Standardize(f)
  }

  /** The six counts the score is made of. */
  datatype Counts = Counts(ma: nat, mr: nat, tr: nat, c: nat, e: nat, a: nat)

  function CountsOf(concrete: set<StandardField>, canonical: set<EntityTypeField>): Counts
  {
    var std := StandardCanonical(canonical);
    var req := RequiredCanonical(canonical);
    Counts(|concrete * std|, |concrete * req|, |req|, |concrete|, |concrete - std|, |req - concrete|)
  }

  /** The score for counts with at least one concrete field. */
  function ScoreOf(k: Counts): real
    requires k.c > 0
  {
    if k.tr == 0 then ((k.ma as real - k.e as real) / k.c as real) / 2.0
    else (((k.ma as real - k.e as real) / k.c as real) + ((k.mr as real - k.a as real) / k.tr as real)) / 2.0
  }

  /** `_CalculateMatchScore(concrete_fields, canonical_fields)`. */
  function MatchScore(concrete: set<StandardField>, canonical: set<EntityTypeField>): (r: Result<real, Error>)
    ensures r.Err? <==> concrete == {}
    ensures r.Err? ==> r.error == EmptyConcreteFields
  {
    var k := CountsOf(concrete, canonical);
    if k.c <= 0 then Err(EmptyConcreteFields) else Ok(ScoreOf(k))
  }

  lemma PartitionCardinality<T>(a: set<T>, b: set<T>)
    ensures |a * b| + |a - b| == |a|
  {
    assert a == (a * b) + (a - b);
    assert (a * b) * (a - b) == {};
  }

  /** Every concrete field is matched or extraneous, and every required
      canonical field is matched or absent. */
  lemma CountsPartition(concrete: set<StandardField>, canonical: set<EntityTypeField>)
    ensures var k := CountsOf(concrete, canonical);
            && k.ma + k.e == k.c
            && k.mr + k.a == k.tr
            && k.mr <= k.ma
  {
    var std := StandardCanonical(canonical);
    var req := RequiredCanonical(canonical);
    PartitionCardinality(concrete, std);
    PartitionCardinality(req, concrete);
    assert req * concrete == concrete * req;
    var mStd, mReq := concrete * std, concrete * req;
    assert mReq <= mStd;
    PartitionCardinality(mStd, mReq);
    assert mStd * mReq == mReq;
  }

  lemma RatioBounds(x: int, n: int)
    requires 0 < n && -n <= x <= n
    ensures -1.0 <= x as real / n as real <= 1.0
  {
    var q := x as real / n as real;
    assert q * n as real == x as real;
  }

  /** The score of a non-empty concrete set lies in [-1, 1]. */
  lemma MatchScoreBounds(concrete: set<StandardField>, canonical: set<EntityTypeField>)
    requires concrete != {}
    ensures MatchScore(concrete, canonical).Ok?
    ensures -1.0 <= MatchScore(concrete, canonical).value <= 1.0
  {
    var k := CountsOf(concrete, canonical);
    CountsPartition(concrete, canonical);
    RatioBounds(k.ma - k.e, k.c);
    if k.tr > 0 {
      RatioBounds(k.mr - k.a, k.tr);
    }
  }

  /** With no required canonical field only the first term counts, so the
      score lies in [-1/2, 1/2]. */
  lemma NoRequiredFieldsScore(concrete: set<StandardField>, canonical: set<EntityTypeField>)
    requires concrete != {}
    requires forall f :: f in canonical ==> f.optional
    ensures var k := CountsOf(concrete, canonical);
            MatchScore(concrete, canonical) == Ok(((k.ma as real - k.e as real) / k.c as real) / 2.0)
    ensures -0.5 <= MatchScore(concrete, canonical).value <= 0.5
  {
    assert RequiredCanonical(canonical) == {};
    var k := CountsOf(concrete, canonical);
    CountsPartition(concrete, canonical);
    RatioBounds(k.ma - k.e, k.c);
  }

  /** A concrete set equal to the standardized fields of an all-required
      type scores exactly 1. */
  lemma PerfectMatchScore(concrete: set<StandardField>, canonical: set<EntityTypeField>)
    requires concrete != {}
    requires forall f :: f in canonical ==> !f.optional
    requires concrete == StandardCanonical(canonical)
    ensures MatchScore(concrete, canonical) == Ok(1.0)
  {
    assert RequiredCanonical(canonical) == StandardCanonical(canonical);
    var k := CountsOf(concrete, canonical);
    assert concrete * concrete == concrete && concrete - concrete == {};
    assert k.ma == k.c && k.e == 0 && k.mr == k.tr && k.a == 0;
    assert k.c as real / k.c as real == 1.0;
  }

  /** A concrete set sharing no field with a non-empty all-required type
      scores exactly -1. */
  lemma TotalMismatchScore(concrete: set<StandardField>, canonical: set<EntityTypeField>)
    requires concrete != {}
    requires canonical != {}
    requires forall f :: f in canonical ==> !f.optional
    requires concrete * StandardCanonical(canonical) == {}
    ensures MatchScore(concrete, canonical) == Ok(-1.0)
  {
    var std := StandardCanonical(canonical);
    assert RequiredCanonical(canonical) == std;
    var f :| f in canonical;
    assert Standardize(f) in std;
    assert concrete - std == concrete && std - concrete == std;
    var k := CountsOf(concrete, canonical);
    assert k.ma == 0 && k.e == k.c && k.mr == 0 && k.a == k.tr && k.tr > 0;
    assert (0.0 - k.c as real) / k.c as real == -1.0;
    assert (0.0 - k.tr as real) / k.tr as real == -1.0;
  }

  /** A room type with required `temperature` and `occupancy` and optional
      `humidity`, all in the global namespace. */
  function RoomFields(): set<EntityTypeField>
  {
    {EntityTypeField("", "temperature", false, ""),
     EntityTypeField("", "occupancy", false, ""),
     EntityTypeField("", "humidity", true, "")}
  }

  lemma RoomFieldSets()
    ensures StandardCanonical(RoomFields())
            == {StandardField("", "temperature", ""), StandardField("", "occupancy", ""), StandardField("", "humidity", "")}
    ensures RequiredCanonical(RoomFields())
            == {StandardField("", "temperature", ""), StandardField("", "occupancy", "")}
  {
  }

  /** The room's own required fields score 1. */
  lemma RoomExactMatch()
    ensures MatchScore({StandardField("", "temperature", ""), StandardField("", "occupancy", "")}, RoomFields())
            == Ok(1.0)
  {
    var t, o, h := StandardField("", "temperature", ""), StandardField("", "occupancy", ""),
                   StandardField("", "humidity", "");
    assert t.name[0] != o.name[0] && t.name[0] != h.name[0] && o.name[0] != h.name[0];
    RoomFieldSets();
    assert {t, o} * {t, o, h} == {t, o} && {t, o} - {t, o, h} == {};
    assert {t, o} * {t, o} == {t, o} && {t, o} - {t, o} == {};
    assert CountsOf({t, o}, RoomFields()) == Counts(2, 2, 2, 2, 0, 0);
  }

  /** One matched required field plus one extraneous field, with the other
      required field absent, score 0. */
  lemma RoomPartialMatch()
    ensures MatchScore({StandardField("", "temperature", ""), StandardField("", "pressure", "")}, RoomFields())
            == Ok(0.0)
  {
    var t, o, h, p := StandardField("", "temperature", ""), StandardField("", "occupancy", ""),
                      StandardField("", "humidity", ""), StandardField("", "pressure", "");
    assert t.name[0] != o.name[0] && t.name[0] != h.name[0] && o.name[0] != h.name[0];
    assert p.name[0] != t.name[0] && p.name[0] != o.name[0] && p.name[0] != h.name[0];
    RoomFieldSets();
    assert {t, p} * {t, o, h} == {t} && {t, p} - {t, o, h} == {p};
    assert {t, p} * {t, o} == {t} && {t, o} - {t, p} == {o};
    assert CountsOf({t, p}, RoomFields()) == Counts(1, 1, 2, 2, 1, 1);
  }

  // ---------------------------------------------------------------------
  // Ranking

  /** A type `GetEntityTypesFromFields` scores: not abstract, with fields,
      and, when a general type is given, having it among its parents. */
  predicate IsCandidate(et: EntityType, generalType: Option<string>)
  {
    && !et.isAbstract
    && |et.allFields| != 0
    && (generalType.Some? ==> Upper(generalType.value) in et.unqualifiedParentNames)
  }

  function CandidateTest(generalType: Option<string>): EntityType -> bool
  {
    (et: EntityType) => IsCandidate(et, generalType)
  }

  /** The candidate types of the namespaces, in iteration order. */
  function Candidates(tns: seq<TypeNamespace>, generalType: Option<string>): seq<EntityType>
  {
    if tns == [] then []
    else Candidates(tns[..|tns| - 1], generalType) + Filter(tns[|tns| - 1].validTypes, CandidateTest(generalType))
  }

  /** The canonical field set `_CreateMatch` builds for a type. */
  function CanonicalFields(et: EntityType): set<EntityTypeField>
  {
    set q | q in et.allFields :: ToEntityTypeField(q)
  }

  /** The set of the concrete field list. */
  function FieldSet(fieldList: seq<StandardField>): (r: set<StandardField>)
    ensures r == {} <==> fieldList == []
  {
    var r := set f | f in fieldList;
    assert fieldList != [] ==> fieldList[0] in r;
    r
  }

  /** `_CreateMatch(field_list, entity_type)`. */
  function MatchFor(fieldList: seq<StandardField>, et: EntityType): (r: Result<Match, Error>)
    ensures r.Err? <==> fieldList == []
    ensures r.Err? ==> r.error == EmptyConcreteFields
    ensures r.Ok? ==> r.value.fields == fieldList && r.value.entityType == et
  {
    match MatchScore(FieldSet(fieldList), CanonicalFields(et))
    case Err(e) => Err(e)
    case Ok(score) => Ok(Match(fieldList, et, score))
  }

  function MatchMaker(fieldList: seq<StandardField>): EntityType -> Result<Match, Error>
  {
    (et: EntityType) => MatchFor(fieldList, et)
  }

  /** One match per type, in order; the first failing type's error otherwise. */
  function MatchesOf(fieldList: seq<StandardField>, ets: seq<EntityType>): Result<seq<Match>, Error>
  {
    CollectOk(ets, MatchMaker(fieldList))
  }

  predicate ScoreLe(a: Match, b: Match)
  {
    a.score <= b.score
  }

  function AboveThreshold(threshold: real): Match -> bool
  {
    (m: Match) => m.score > threshold
  }

  /** `GetEntityTypesFromFields(field_list, general_type, best_fit)` with the
      wrapper's threshold. */
  function EntityTypesFromFields(u: ConfigUniverse, fieldList: seq<StandardField>, generalType: Option<string>,
                                 bestFit: bool, threshold: real): Result<seq<Match>, Error>
  {
    match MatchesOf(fieldList, Candidates(u.typeNamespaces, generalType))
    case Err(e) => Err(e)
    case Ok(ms) =>
      var sorted := SortBy(ms, ScoreLe);
      Ok(if bestFit then Filter(sorted, AboveThreshold(threshold)) else sorted)
  }

  lemma ScoreLeTotalPreorder()
    ensures TotalPreorder(ScoreLe)
  {
  }

  /** Matching each type fails exactly when the field list is empty and there
      is a type to match; otherwise there is one match per type, in order. */
  lemma MatchesOfShape(fieldList: seq<StandardField>, ets: seq<EntityType>)
    ensures MatchesOf(fieldList, ets).Err? <==> ets != [] && fieldList == []
    ensures MatchesOf(fieldList, ets).Err? ==> MatchesOf(fieldList, ets).error == EmptyConcreteFields
    ensures MatchesOf(fieldList, ets).Ok? ==>
              && |MatchesOf(fieldList, ets).value| == |ets|
              && forall k :: 0 <= k < |ets| ==> MatchFor(fieldList, ets[k]) == Ok(MatchesOf(fieldList, ets).value[k])
  {
    var f := MatchMaker(fieldList);
    CollectOkShape(ets, f);
    assert forall k :: 0 <= k < |ets| ==> f(ets[k]) == MatchFor(fieldList, ets[k]);
    if ets != [] && fieldList == [] {
      assert f(ets[0]).Err?;
    }
  }

  lemma MatchesOfEmptyFields(fieldList: seq<StandardField>, ets: seq<EntityType>)
    requires fieldList == [] && ets != []
    ensures MatchesOf(fieldList, ets) == Err(EmptyConcreteFields)
  {
    assert MatchMaker(fieldList)(ets[0]) == MatchFor(fieldList, ets[0]);
  }

  lemma CandidateStep(types: seq<EntityType>, j: nat, generalType: Option<string>)
    requires j < |types|
    ensures Filter(types[..j + 1], CandidateTest(generalType))
            == Filter(types[..j], CandidateTest(generalType))
               + if IsCandidate(types[j], generalType) then [types[j]] else []
  {
    assert types[..j + 1] == types[..j] + [types[j]];
    FilterAppend(types[..j], types[j], CandidateTest(generalType));
  }

  lemma CandidatesAppend(tns: seq<TypeNamespace>, i: nat, generalType: Option<string>)
    requires i < |tns|
    ensures Candidates(tns[..i + 1], generalType)
            == Candidates(tns[..i], generalType) + Filter(tns[i].validTypes, CandidateTest(generalType))
  {
    assert tns[..i + 1][..i] == tns[..i];
  }

  /** A type is a candidate exactly when some namespace holds it and it passes
      the candidate test. */
  lemma {:induction false} CandidateMembership(tns: seq<TypeNamespace>, generalType: Option<string>, et: EntityType)
    ensures et in Candidates(tns, generalType)
            <==> IsCandidate(et, generalType) && exists i :: 0 <= i < |tns| && et in tns[i].validTypes
  {
    if tns != [] {
      var init := tns[..|tns| - 1];
      var last := tns[|tns| - 1];
      CandidateMembership(init, generalType, et);
      var f := Filter(last.validTypes, CandidateTest(generalType));
      assert et in f <==> et in last.validTypes && IsCandidate(et, generalType) by {
        if et in f {
          var k :| 0 <= k < |f| && f[k] == et;
          assert CandidateTest(generalType)(f[k]);
        }
        if et in last.validTypes && IsCandidate(et, generalType) {
          var k :| 0 <= k < |last.validTypes| && last.validTypes[k] == et;
          assert CandidateTest(generalType)(last.validTypes[k]);
        }
      }
      if exists i :: 0 <= i < |tns| && et in tns[i].validTypes {
        var i :| 0 <= i < |tns| && et in tns[i].validTypes;
        if i < |tns| - 1 {
          assert init[i] == tns[i];
        }
      }
      if exists i :: 0 <= i < |init| && et in init[i].validTypes {
        var i :| 0 <= i < |init| && et in init[i].validTypes;
        assert tns[i] == init[i];
      }
    }
  }

  /** Ranking fails exactly when the field list is empty and some type is a
      candidate; the error is then the empty-field-set one. With no candidate
      an empty field list gives the empty ranking. */
  lemma RankingFailsOnEmptyFields(u: ConfigUniverse, fieldList: seq<StandardField>, generalType: Option<string>,
                                  bestFit: bool, threshold: real)
    ensures var r := EntityTypesFromFields(u, fieldList, generalType, bestFit, threshold);
            && (r.Err? <==> fieldList == [] && Candidates(u.typeNamespaces, generalType) != [])
            && (r.Err? ==> r.error == EmptyConcreteFields && r.error.Class() == ValueError)
            && (fieldList == [] && Candidates(u.typeNamespaces, generalType) == [] ==> r == Ok([]))
  {
    MatchesOfShape(fieldList, Candidates(u.typeNamespaces, generalType));
  }

  /** The full ranking is a permutation of the candidates' matches, one per
      candidate, sorted by ascending score, each score in [-1, 1]. */
  lemma RankingContents(u: ConfigUniverse, fieldList: seq<StandardField>, generalType: Option<string>, threshold: real)
    requires fieldList != []
    ensures var cands := Candidates(u.typeNamespaces, generalType);
            var r := EntityTypesFromFields(u, fieldList, generalType, false, threshold);
            && r.Ok? && MatchesOf(fieldList, cands).Ok?
            && multiset(r.value) == multiset(MatchesOf(fieldList, cands).value)
            && |r.value| == |cands|
            && (forall i, j :: 0 <= i < j < |r.value| ==> r.value[i].score <= r.value[j].score)
            && (forall i :: 0 <= i < |r.value| ==>
                  && r.value[i].fields == fieldList
                  && r.value[i].entityType in cands
                  && -1.0 <= r.value[i].score <= 1.0)
  {
    var cands := Candidates(u.typeNamespaces, generalType);
    MatchesInRange(fieldList, cands);
    var ms := MatchesOf(fieldList, cands).value;
    ScoreLeTotalPreorder();
    SortBySorted(ms, ScoreLe);
    SortByMembers(ms, ScoreLe);
  }

  /** Each match of a non-empty field list is for one of the types and
      scores in [-1, 1]. */
  lemma MatchesInRange(fieldList: seq<StandardField>, ets: seq<EntityType>)
    requires fieldList != []
    ensures MatchesOf(fieldList, ets).Ok?
    ensures |MatchesOf(fieldList, ets).value| == |ets|
    ensures forall i :: 0 <= i < |ets| ==>
              var m := MatchesOf(fieldList, ets).value[i];
              m.fields == fieldList && m.entityType in ets && -1.0 <= m.score <= 1.0
  {
    MatchesOfShape(fieldList, ets);
    var ms := MatchesOf(fieldList, ets).value;
    forall i | 0 <= i < |ets|
      ensures ms[i].fields == fieldList && ms[i].entityType in ets && -1.0 <= ms[i].score <= 1.0
    {
      assert MatchFor(fieldList, ets[i]) == Ok(ms[i]);
      MatchScoreBounds(FieldSet(fieldList), CanonicalFields(ets[i]));
    }
  }

  /** The best-fit ranking is the full ranking with every match at or below
      the threshold removed, in the same order. */
  lemma BestFitIsFilteredRanking(u: ConfigUniverse, fieldList: seq<StandardField>, generalType: Option<string>,
                                 threshold: real)
    ensures var full := EntityTypesFromFields(u, fieldList, generalType, false, threshold);
            var best := EntityTypesFromFields(u, fieldList, generalType, true, threshold);
            && (full.Err? ==> best == full)
            && (full.Ok? ==>
                  && best.Ok?
                  && best.value == Filter(full.value, AboveThreshold(threshold))
                  && Subsequence(best.value, full.value)
                  && (forall i, j :: 0 <= i < j < |best.value| ==> best.value[i].score <= best.value[j].score)
                  && (forall i :: 0 <= i < |best.value| ==> best.value[i].score > threshold)
                  && (forall i :: 0 <= i < |full.value| && full.value[i].score > threshold
                        ==> full.value[i] in best.value))
  {
    var full := EntityTypesFromFields(u, fieldList, generalType, false, threshold);
    if full.Ok? {
      var p := AboveThreshold(threshold);
      var best := Filter(full.value, p);
      FilterSubsequence(full.value, p);
      ScoreLeTotalPreorder();
      SortBySorted(MatchesOf(fieldList, Candidates(u.typeNamespaces, generalType)).value, ScoreLe);
      FilterSorted(full.value, p, ScoreLe);
      forall i | 0 <= i < |best| ensures best[i].score > threshold {
        assert p(best[i]);
      }
      forall i | 0 <= i < |full.value| && full.value[i].score > threshold
        ensures full.value[i] in best
      {
        assert p(full.value[i]);
      }
    }
  }

  // ---------------------------------------------------------------------
  // Field list

  predicate NameLe(a: EntityTypeField, b: EntityTypeField)
  {
    LexLe(a.StandardFieldName(), b.StandardFieldName())
  }

  lemma NameLeTotalPreorder()
    ensures TotalPreorder(NameLe)
  {
    forall a, b ensures NameLe(a, b) || NameLe(b, a) {
      LexLeTotal(a.name, b.name);
    }
    forall a, b, c | NameLe(a, b) && NameLe(b, c) ensures NameLe(a, c) {
      LexLeTransitive(a.name, b.name, c.name);
    }
  }

  /** The EntityTypeFields built from a type's field-map entries, in order. */
  function ConvertFields(qs: seq<QualifiedField>): (r: seq<EntityTypeField>)
    ensures |r| == |qs|
  {
    seq(|qs|, i requires 0 <= i < |qs| => ToEntityTypeField(qs[i]))
  }

  /** The converted fields, without the optional ones when `requiredOnly`. */
  function SelectFields(fields: seq<EntityTypeField>, requiredOnly: bool): seq<EntityTypeField>
  {
    if requiredOnly then Filter(fields, IsRequired) else fields
  }

  /** `GetFieldsForTypeName(namespace, entity_type_name, required_only)`. */
  function FieldsForTypeName(u: ConfigUniverse, namespace: string, typename: string, requiredOnly: bool)
    : Result<seq<EntityTypeField>, Error>
  {
    match GetEntityType(u, namespace, typename)
    case None => Err(UndefinedType(typename, namespace))
    case Some(et) =>
      if !et.inheritedFieldsExpanded then Err(InheritanceNotExpanded)
      else Ok(SortBy(SelectFields(ConvertFields(et.allFields), requiredOnly), NameLe))
  }

  /** An unknown type is a ValueError whose message names the global
      namespace when none is given and the namespace otherwise; an unexpanded
      type is an Exception; any other type yields its field list. */
  lemma FieldsForTypeNameOutcomes(u: ConfigUniverse, namespace: string, typename: string, requiredOnly: bool)
    ensures var r := FieldsForTypeName(u, namespace, typename, requiredOnly);
            var found := GetEntityType(u, namespace, typename);
            && (r.Ok? <==> found.Some? && found.value.inheritedFieldsExpanded)
            && (found.None? ==> r.Err? && r.error.Class() == ValueError
                                && r.error.Message()
                                   == if namespace == "" then "\n" + typename + " is not defined in global namespace."
                                      else "\n" + typename + " is not defined in namespace: " + namespace + ".")
            && (found.Some? && !found.value.inheritedFieldsExpanded ==>
                  r.Err? && r.error.Class() == Exception && r.error != UndefinedType(typename, namespace))
  {
  }

  /** The two "not defined" messages tell an empty namespace from a
      named one. */
  lemma UndefinedTypeMessagesDiffer(typename: string, namespace: string)
    requires namespace != ""
    ensures UndefinedType(typename, "").Message() != UndefinedType(typename, namespace).Message()
  {
    var global := UndefinedType(typename, "").Message();
    var named := UndefinedType(typename, namespace).Message();
    var k := 1 + |typename| + |" is not defined in "|;
    assert global[k] == 'g';
    assert named[k] == 'n';
  }

  /** A field list is sorted by standard field name and holds exactly the
      selected converted fields of the type. */
  lemma FieldsSortedPermutation(u: ConfigUniverse, namespace: string, typename: string, requiredOnly: bool)
    ensures var r := FieldsForTypeName(u, namespace, typename, requiredOnly);
            r.Ok? ==>
              && (forall i, j :: 0 <= i < j < |r.value|
                    ==> LexLe(r.value[i].StandardFieldName(), r.value[j].StandardFieldName()))
              && multiset(r.value)
                 == multiset(SelectFields(ConvertFields(GetEntityType(u, namespace, typename).value.allFields),
                                          requiredOnly))
  {
    var r := FieldsForTypeName(u, namespace, typename, requiredOnly);
    if r.Ok? {
      var et := GetEntityType(u, namespace, typename).value;
      NameLeTotalPreorder();
      SortBySorted(SelectFields(ConvertFields(et.allFields), requiredOnly), NameLe);
    }
  }

  /** The required-only field list is the full field list without its
      optional fields, and holds no optional field. */
  lemma RequiredOnlyIsFiltered(u: ConfigUniverse, namespace: string, typename: string)
    ensures var full := FieldsForTypeName(u, namespace, typename, false);
            var req := FieldsForTypeName(u, namespace, typename, true);
            && (full.Err? ==> req == full)
            && (full.Ok? ==> req == Ok(Filter(full.value, IsRequired)))
            && (req.Ok? ==> forall i :: 0 <= i < |req.value| ==> !req.value[i].optional)
  {
    var found := GetEntityType(u, namespace, typename);
    if found.Some? && found.value.inheritedFieldsExpanded {
      NameLeTotalPreorder();
      FilterSortBy(ConvertFields(found.value.allFields), NameLe, IsRequired);
      var req := FieldsForTypeName(u, namespace, typename, true).value;
      forall i | 0 <= i < |req| ensures !req[i].optional {
        assert IsRequired(req[i]);
      }
    }
  }

  // ---------------------------------------------------------------------
  // Field validity

  /** A field registered in namespace `n` is valid when asked for in `n`, and
      not when asked for in a namespace where it is not registered. */
  lemma FieldValiditySymmetry(w: OntologyWrapper, field: StandardField, other: string)
    requires (field.namespace, field.name) in w.universe.definedFields
    requires (other, field.name) !in w.universe.definedFields
    ensures w.IsFieldValid(StandardFieldArg(field)) == Ok(true)
    ensures w.IsFieldValid(StandardFieldArg(field.(namespace := other))) == Ok(false)
  {
  }

  // ---------------------------------------------------------------------
  // The wrapper object

  class OntologyWrapper {
    const universe: ConfigUniverse
    var matchScoreThreshold: real

    constructor (universe: ConfigUniverse)
      ensures this.universe == universe
      ensures matchScoreThreshold == DefaultMatchScoreThreshold
    {
      this.universe := universe;
      matchScoreThreshold := DefaultMatchScoreThreshold;
    }

    method GetFieldsForTypeName(namespace: string, entityTypeName: string, requiredOnly: bool := false)
      returns (r: Result<seq<EntityTypeField>, Error>)
      ensures r == FieldsForTypeName(universe, namespace, entityTypeName, requiredOnly)
    {
      var entityType := GetEntityType(universe, namespace, entityTypeName);
      if entityType.None? {
        return Err(UndefinedType(entityTypeName, namespace));
      }
      var et := entityType.value;
      if !et.inheritedFieldsExpanded {
        return Err(InheritanceNotExpanded);
      }
      var entityTypeFields: seq<EntityTypeField> := [];
      for i := 0 to |et.allFields|
        invariant |entityTypeFields| == i
        invariant forall k :: 0 <= k < i ==> entityTypeFields[k] == ToEntityTypeField(et.allFields[k])
      {
        entityTypeFields := entityTypeFields + [ToEntityTypeField(et.allFields[i])];
      }
      assert entityTypeFields == ConvertFields(et.allFields);
      if requiredOnly {
        entityTypeFields := Filter(entityTypeFields, IsRequired);
      }
      return Ok(SortBy(entityTypeFields, NameLe));
    }

    method CreateMatch(fieldList: seq<StandardField>, entityType: EntityType) returns (r: Result<Match, Error>)
      ensures r == MatchFor(fieldList, entityType)
    {
      var canonicalFieldSet: set<EntityTypeField> := {};
      for i := 0 to |entityType.allFields|
        invariant canonicalFieldSet == set q | q in entityType.allFields[..i] :: ToEntityTypeField(q)
      {
        assert entityType.allFields[..i + 1] == entityType.allFields[..i] + [entityType.allFields[i]];
        canonicalFieldSet := canonicalFieldSet + {ToEntityTypeField(entityType.allFields[i])};
      }
      assert entityType.allFields[..|entityType.allFields|] == entityType.allFields;
      var matchScore := MatchScore(FieldSet(fieldList), canonicalFieldSet);
      if matchScore.Err? {
        return Err(matchScore.error);
      }
      return Ok(Match(fieldList, entityType, matchScore.value));
    }

    /** The first loop of `GetEntityTypesFromFields`: the candidate types of
        every namespace, in iteration order. */
    method CandidateTypes(generalType: Option<string>) returns (entityTypeList: seq<EntityType>)
      ensures entityTypeList == Candidates(universe.typeNamespaces, generalType)
    {
      entityTypeList := [];
      var typeNamespacesList := universe.typeNamespaces;
      for i := 0 to |typeNamespacesList|
        invariant entityTypeList == Candidates(typeNamespacesList[..i], generalType)
      {
        entityTypeList := AppendCandidates(entityTypeList, typeNamespacesList[i].validTypes, generalType);
        CandidatesAppend(typeNamespacesList, i, generalType);
      }
      assert typeNamespacesList[..|typeNamespacesList|] == typeNamespacesList;
    }

    /** The inner loop of `CandidateTypes`: appends the candidate types of
        one namespace. */
    method AppendCandidates(entityTypeList: seq<EntityType>, types: seq<EntityType>, generalType: Option<string>)
      returns (r: seq<EntityType>)
      ensures r == entityTypeList + Filter(types, CandidateTest(generalType))
    {
      r := entityTypeList;
      for j := 0 to |types|
        invariant r == entityTypeList + Filter(types[..j], CandidateTest(generalType))
      {
        var entityType := types[j];
        CandidateStep(types, j, generalType);
        if entityType.isAbstract || |entityType.allFields| == 0 {
          continue;
        }
        if generalType.Some? {
          if Upper(generalType.value) in entityType.unqualifiedParentNames {
            r := r + [entityType];
          }
        } else {
          r := r + [entityType];
        }
      }
      assert types[..|types|] == types;
    }

    /** The second loop of `GetEntityTypesFromFields`: one match per type. */
    method CreateMatches(fieldList: seq<StandardField>, entityTypeList: seq<EntityType>)
      returns (r: Result<seq<Match>, Error>)
      ensures r == MatchesOf(fieldList, entityTypeList)
    {
      var matchList: seq<Match> := [];
      for i := 0 to |entityTypeList|
        invariant MatchesOf(fieldList, entityTypeList[..i]) == Ok(matchList)
      {
        var m := CreateMatch(fieldList, entityTypeList[i]);
        if m.Err? {
          MatchesOfEmptyFields(fieldList, entityTypeList);
          return Err(m.error);
        }
        assert MatchMaker(fieldList)(entityTypeList[i]) == Ok(m.value);
        CollectOkPrefix(entityTypeList, i, MatchMaker(fieldList), matchList, m.value);
        matchList := matchList + [m.value];
      }
      assert entityTypeList[..|entityTypeList|] == entityTypeList;
      return Ok(matchList);
    }

    method GetEntityTypesFromFields(fieldList: seq<StandardField>, generalType: Option<string> := None,
                                    bestFit: bool := false)
      returns (r: Result<seq<Match>, Error>)
      ensures r == EntityTypesFromFields(universe, fieldList, generalType, bestFit, matchScoreThreshold)
    {
      var entityTypeList := CandidateTypes(generalType);
      var matchList := CreateMatches(fieldList, entityTypeList);
      if matchList.Err? {
        return Err(matchList.error);
      }
      var matchListSorted := SortBy(matchList.value, ScoreLe);
      if bestFit {
        return Ok(Filter(matchListSorted, AboveThreshold(matchScoreThreshold)));
      }
      return Ok(matchListSorted);
    }

    /** `IsFieldValid(field)`: a TypeError for anything but a StandardField,
        otherwise whether the registry defines the field in its namespace. */
    function IsFieldValid(field: Argument): (r: Result<bool, Error>)
      ensures r.Err? <==> field.OtherObject?
      ensures r.Err? ==> r.error.Class() == TypeError
      ensures r.Ok? ==> r.value == ((field.field.namespace, field.field.name) in universe.definedFields)
    {
      match field
      case OtherObject(typeName) => Err(NotAStandardField(typeName))
      case StandardFieldArg(f) => Ok(IsFieldDefined(universe, f.namespace, f.name))
    }
  }

}
