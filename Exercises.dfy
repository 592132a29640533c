/** The exercise library page (src/pages/Exercises.tsx): a search box and two
    drop-down filters over the page's exercise table, the list of muscle tags
    offered by the second drop-down, the labels of its options, and the link
    each card opens. */
module ExerciseLibrary {
  import opened Types
  import opened Catalog
  import opened Text
  import WorkoutSession

  /** The page's own table: Squat, Push-up and Lunges. */
  const LibraryExercises: seq<Exercise> := [Squat, PushUp, Lunges]

  /** The value of a drop-down that lets everything through. */
  const AllOption := "all"

  /** The three inputs of the page. */
  datatype Filters = Filters(searchTerm: string, difficulty: string, muscle: string)

  /** The page's initial inputs, which "Clear filters" restores. */
  function ClearFilters(): (f: Filters)
    ensures f.searchTerm == "" && f.difficulty == AllOption && f.muscle == AllOption
  {
    Filters("", AllOption, AllOption)
  }

  // ---------------------------------------------------------------------------
  // The filter

  /** Case-insensitive search in the name or the description. */
  predicate MatchesSearch(e: Exercise, term: string)
    ensures term == "" ==> MatchesSearch(e, term)
    ensures MatchesSearch(e, term) ==> |term| <= |e.name| || |term| <= |e.description|
  {
    Includes(ToLower(e.name), ToLower(term)) || Includes(ToLower(e.description), ToLower(term))
  }

  /** "all", or the exercise's difficulty written as in the record type. */
  predicate MatchesDifficulty(e: Exercise, difficulty: string)
    ensures difficulty == AllOption || difficulty == DifficultyName(e.difficulty) ==> MatchesDifficulty(e, difficulty)
    ensures MatchesDifficulty(e, difficulty) ==>
      difficulty in {AllOption, "beginner", "intermediate", "advanced"}
  {
    difficulty == AllOption || DifficultyName(e.difficulty) == difficulty
  }

  /** `targetMuscles.some(muscle => muscle === filter)` is membership. */
  predicate MatchesMuscle(e: Exercise, muscle: string)
    ensures MatchesMuscle(e, muscle) <==>
      muscle == AllOption || exists k :: 0 <= k < |e.targetMuscles| && e.targetMuscles[k] == muscle
  {
    muscle == AllOption || muscle in e.targetMuscles
  }

  /** All three tests; the cleared inputs let every exercise through. */
  predicate Matches(e: Exercise, f: Filters)
    ensures f == ClearFilters() ==> Matches(e, f)
    ensures Matches(e, f) ==> MatchesSearch(e, f.searchTerm)
  {
    MatchesSearch(e, f.searchTerm) && MatchesDifficulty(e, f.difficulty) && MatchesMuscle(e, f.muscle)
  }

  /** `filteredExercises`: the exercises that pass all three tests, in table order. */
  function FilterExercises(exercises: seq<Exercise>, f: Filters): (r: seq<Exercise>)
    ensures |r| <= |exercises|
    ensures forall e :: e in r ==> e in exercises && Matches(e, f)
  {
    if exercises == [] then []
    else (if Matches(exercises[0], f) then [exercises[0]] else []) + FilterExercises(exercises[1..], f)
  }

  /** `a` is `b` with some elements left out, the rest kept in order. */
  ghost predicate IsSubsequence<T>(a: seq<T>, b: seq<T>)
    decreases |b|
  {
    a == [] || (|b| > 0 && ((a[0] == b[0] && IsSubsequence(a[1..], b[1..])) || IsSubsequence(a, b[1..])))
  }

  /** The result keeps the table order, and keeps every copy of a matching
      exercise and no copy of any other. */
  lemma {:induction false} FilterCharacterised(exercises: seq<Exercise>, f: Filters)
    ensures IsSubsequence(FilterExercises(exercises, f), exercises)
    ensures forall e :: multiset(FilterExercises(exercises, f))[e] == (if Matches(e, f) then multiset(exercises)[e] else 0)
  {
    if exercises != [] {
      var head, tail := exercises[0], exercises[1..];
      var kept, rest := FilterExercises(exercises, f), FilterExercises(tail, f);
      FilterCharacterised(tail, f);
      assert exercises == [head] + tail;
      if Matches(head, f) {
        assert kept == [head] + rest;
        assert kept[0] == head && kept[1..] == rest;
      } else {
        assert kept == rest;
      }
      assert multiset(exercises) == multiset{head} + multiset(tail);
      assert multiset(kept) == (if Matches(head, f) then multiset{head} else multiset{}) + multiset(rest);
    }
  }

  /** An exercise of the table is listed exactly when it passes all three tests. */
  lemma FilterMembership(exercises: seq<Exercise>, f: Filters, e: Exercise)
    ensures e in FilterExercises(exercises, f) <==> e in exercises && Matches(e, f)
  {
    FilterCharacterised(exercises, f);
    assert e in FilterExercises(exercises, f) <==> multiset(FilterExercises(exercises, f))[e] > 0;
    assert e in exercises <==> multiset(exercises)[e] > 0;
  }

  /** The search is a substring test on the lower-cased texts. */
  lemma SearchIsSubstring(e: Exercise, term: string)
    ensures MatchesSearch(e, term) <==>
      (exists i :: OccursAt(ToLower(e.name), ToLower(term), i)) ||
      (exists i :: OccursAt(ToLower(e.description), ToLower(term), i))
  {
    IncludesIff(ToLower(e.name), ToLower(term));
    IncludesIff(ToLower(e.description), ToLower(term));
  }

  /** Searching ignores the letter case of the search term. */
  lemma SearchIgnoresCase(e: Exercise, term: string)
    ensures MatchesSearch(e, term) <==> MatchesSearch(e, ToLower(term))
  {
    ToLowerIdempotent(term);
  }

  /** Choosing a difficulty in the drop-down keeps exactly the exercises of that
      difficulty; choosing a muscle keeps exactly those that target it. */
  lemma DropDownsSelect(e: Exercise, d: Difficulty, muscle: string)
    requires muscle != AllOption
    ensures MatchesDifficulty(e, DifficultyName(d)) <==> e.difficulty == d
    ensures MatchesMuscle(e, muscle) <==> exists k :: 0 <= k < |e.targetMuscles| && e.targetMuscles[k] == muscle
  {
    DifficultyNameInjective(e.difficulty, d);
    assert DifficultyName(d) != AllOption by {
      assert |DifficultyName(d)| > 3;
    }
  }

  /** With the inputs cleared every exercise is listed. */
  lemma {:induction false} ClearedFiltersListAll(exercises: seq<Exercise>)
    ensures FilterExercises(exercises, ClearFilters()) == exercises
  {
    if exercises != [] {
      IncludesEmpty(ToLower(exercises[0].name));
      assert ToLower("") == "";
      ClearedFiltersListAll(exercises[1..]);
    }
  }

  /** A list whose every exercise passes is listed whole. */
  lemma {:induction false} FilterKeepsMatching(exercises: seq<Exercise>, f: Filters)
    requires forall k :: 0 <= k < |exercises| ==> Matches(exercises[k], f)
    ensures FilterExercises(exercises, f) == exercises
  {
    if exercises != [] {
      FilterKeepsMatching(exercises[1..], f);
    }
  }

  /** Applying the same filter twice lists the same exercises. */
  lemma FilterIdempotent(exercises: seq<Exercise>, f: Filters)
    ensures FilterExercises(FilterExercises(exercises, f), f) == FilterExercises(exercises, f)
  {
    var r := FilterExercises(exercises, f);
    assert forall k :: 0 <= k < |r| ==> r[k] in r;
    FilterKeepsMatching(r, f);
  }

  // ---------------------------------------------------------------------------
  // The muscle drop-down

  /** `exercises.flatMap(exercise => exercise.targetMuscles)`. */
  function FlatMuscles(exercises: seq<Exercise>): (r: seq<string>)
    ensures exercises != [] ==> exercises[0].targetMuscles <= r
    ensures forall m :: m in r ==> exists k :: 0 <= k < |exercises| && m in exercises[k].targetMuscles
  {
    if exercises == [] then []
    else
      var rest := FlatMuscles(exercises[1..]);
      assert forall m :: m in rest ==> exists k :: 1 <= k < |exercises| && m in exercises[k].targetMuscles by {
        forall m | m in rest ensures exists k :: 1 <= k < |exercises| && m in exercises[k].targetMuscles {
          var k :| 0 <= k < |exercises[1..]| && m in exercises[1..][k].targetMuscles;
          assert exercises[k + 1] == exercises[1..][k];
        }
      }
      exercises[0].targetMuscles + rest
  }

  lemma {:induction false} FlatMusclesMembership(exercises: seq<Exercise>, m: string)
    ensures m in FlatMuscles(exercises) <==> exists k :: 0 <= k < |exercises| && m in exercises[k].targetMuscles
  {
    if exercises != [] {
      FlatMusclesMembership(exercises[1..], m);
      if m in FlatMuscles(exercises[1..]) {
        var k :| 0 <= k < |exercises[1..]| && m in exercises[1..][k].targetMuscles;
        assert exercises[k + 1] == exercises[1..][k];
      }
      forall k | 1 <= k < |exercises| && m in exercises[k].targetMuscles
        ensures m in FlatMuscles(exercises[1..])
      {
        assert exercises[1..][k - 1] == exercises[k];
      }
    }
  }

  /** `Array.from(new Set(s))`: each value once, in order of first insertion. */
  function Dedupe(s: seq<string>): (r: seq<string>)
    ensures |r| <= |s|
    ensures forall x :: x in r ==> x in s
  {
    if s == [] then []
    else
      var r := Dedupe(s[..|s| - 1]);
      if s[|s| - 1] in r then r else r + [s[|s| - 1]]
  }

  ghost predicate NoDuplicates<T>(s: seq<T>) {
    forall i, j :: 0 <= i < j < |s| ==> s[i] != s[j]
  }

  /** The position of the first occurrence of `x` in `s`. */
  function FirstIndex<T(==)>(s: seq<T>, x: T): (k: nat)
    requires x in s
    ensures k < |s| && s[k] == x && x !in s[..k]
  {
    if s[0] == x then 0 else 1 + FirstIndex(s[1..], x)
  }

  lemma FirstIndexUnique<T>(s: seq<T>, x: T, k: nat)
    requires k < |s| && s[k] == x && x !in s[..k]
    ensures FirstIndex(s, x) == k
  {
    var f := FirstIndex(s, x);
    assert forall j :: 0 <= j < k ==> s[..k][j] == s[j];
    assert forall j :: 0 <= j < f ==> s[..f][j] == s[j];
  }

  /** The first occurrence in a prefix is the first occurrence in the whole. */
  lemma FirstIndexOfPrefix<T>(s: seq<T>, n: nat, x: T)
    requires n <= |s| && x in s[..n]
    ensures FirstIndex(s, x) == FirstIndex(s[..n], x)
  {
    var k := FirstIndex(s[..n], x);
    assert s[..n][..k] == s[..k];
    FirstIndexUnique(s, x, k);
  }

  /** The tag list has no repeats, holds exactly the tags of `s`, and lists
      them by their first occurrence in `s`. */
  lemma {:induction false} DedupeCharacterised(s: seq<string>)
    ensures NoDuplicates(Dedupe(s))
    ensures forall x :: x in Dedupe(s) <==> x in s
    ensures forall i, j :: 0 <= i < j < |Dedupe(s)| ==>
      FirstIndex(s, Dedupe(s)[i]) < FirstIndex(s, Dedupe(s)[j])
  {
    if s != [] {
      var n := |s| - 1;
      var p, x := s[..n], s[n];
      assert s == p + [x];
      DedupeCharacterised(p);
      var rp := Dedupe(p);
      var r := Dedupe(s);
      forall y | y in rp ensures FirstIndex(s, y) == FirstIndex(p, y) {
        FirstIndexOfPrefix(s, n, y);
      }
      if x !in rp {
        assert r == rp + [x];
        FirstIndexUnique(s, x, n);
        forall i | 0 <= i < |rp| ensures FirstIndex(s, r[i]) < FirstIndex(s, x) {
          assert r[i] == rp[i];
        }
      }
    }
  }

  /** `allMuscles`. */
  function AllMuscles(exercises: seq<Exercise>): (r: seq<string>)
    ensures |r| <= |FlatMuscles(exercises)|
    ensures forall m :: m in r ==> exists k :: 0 <= k < |exercises| && m in exercises[k].targetMuscles
  {
    Dedupe(FlatMuscles(exercises))
  }

  /** The drop-down offers every tag of every exercise, each once. */
  lemma AllMusclesCharacterised(exercises: seq<Exercise>)
    ensures NoDuplicates(AllMuscles(exercises))
    ensures forall m :: m in AllMuscles(exercises) <==>
      exists k :: 0 <= k < |exercises| && m in exercises[k].targetMuscles
  {
    DedupeCharacterised(FlatMuscles(exercises));
    forall m ensures m in FlatMuscles(exercises) <==>
      exists k :: 0 <= k < |exercises| && m in exercises[k].targetMuscles
    {
      FlatMusclesMembership(exercises, m);
    }
  }

  /** A list without repeats is its own tag list. */
  lemma {:induction false} DedupeOfDistinct(s: seq<string>)
    requires NoDuplicates(s)
    ensures Dedupe(s) == s
  {
    if s != [] {
      var n := |s| - 1;
      DedupeOfDistinct(s[..n]);
      assert forall j :: 0 <= j < n ==> s[..n][j] != s[n];
    }
  }

  /** Tags that were already seen add nothing. */
  lemma {:induction false} DedupeAbsorbsSeen(a: seq<string>, b: seq<string>)
    requires forall x :: x in b ==> x in a
    ensures Dedupe(a + b) == Dedupe(a)
    decreases |b|
  {
    if b != [] {
      var n := |b| - 1;
      assert (a + b)[..|a + b| - 1] == a + b[..n];
      assert b[n] in b;
      DedupeAbsorbsSeen(a, b[..n]);
      DedupeCharacterised(a);
    } else {
      assert a + b == a;
    }
  }

  /** Strings with pairwise different first characters are pairwise different. */
  lemma DistinctByInitials(s: seq<string>, initials: string)
    requires |initials| == |s| && NoDuplicates(initials)
    requires forall i :: 0 <= i < |s| ==> |s[i]| > 0 && s[i][0] == initials[i]
    ensures NoDuplicates(s)
  {
  }

  /** The page's table flattened: the three tag lists one after another. */
  lemma LibraryFlat()
    ensures FlatMuscles(LibraryExercises) ==
      Squat.targetMuscles + PushUp.targetMuscles + Lunges.targetMuscles
  {
    var tail := LibraryExercises[1..];
    assert tail == [PushUp, Lunges] && tail[1..] == [Lunges] && tail[1..][1..] == [];
    assert FlatMuscles([Lunges]) == Lunges.targetMuscles;
  }

  /** For the page's table: the Squat tags, then the Push-up tags; Lunges adds none. */
  lemma LibraryMuscles()
    ensures AllMuscles(LibraryExercises) ==
      ["quadriceps", "hamstrings", "glutes", "chest", "shoulders", "triceps"]
  {
    LibraryFlat();
    var seen := Squat.targetMuscles + PushUp.targetMuscles;
    assert Lunges.targetMuscles == seen[..3];
    DedupeAbsorbsSeen(seen, Lunges.targetMuscles);
    DistinctByInitials(seen, "qhgcst");
    DedupeOfDistinct(seen);
  }

  // ---------------------------------------------------------------------------
  // Option labels

  /** `muscle.charAt(0).toUpperCase() + muscle.slice(1)`. */
  function Capitalize(s: string): (r: string)
    ensures |r| == |s|
  {
    if s == "" then "" else [UpperChar(s[0])] + s[1..]
  }

  /** Only the first character may change, and only in case: the label lowers to
      what the tag lowers to, and capitalising a label changes nothing. */
  lemma CapitalizeCharacterised(s: string)
    ensures s == "" ==> Capitalize(s) == ""
    ensures s != "" ==> Capitalize(s)[1..] == s[1..] && !IsLower(Capitalize(s)[0])
    ensures ToLower(Capitalize(s)) == ToLower(s)
    ensures Capitalize(Capitalize(s)) == Capitalize(s)
  {
    if s != "" {
      LowerOfUpper(s[0]);
      var r := Capitalize(s);
      assert forall i :: 1 <= i < |s| ==> r[i] == s[i];
    }
  }

  // ---------------------------------------------------------------------------
  // Card links

  const WorkoutRoute := "/workout?exercise="

  /** `handleExerciseClick`: the path the page navigates to. */
  function WorkoutPath(id: string): (p: string)
    ensures WorkoutRoute <= p && p[|WorkoutRoute|..] == id
  {
    WorkoutRoute + id
  }

  /** Characters that survive query-string decoding unchanged. */
  predicate PlainQueryChar(c: char) {
    ('0' <= c <= '9') || ('a' <= c <= 'z') || ('A' <= c <= 'Z') || c == '-' || c == '_' || c == '.'
  }

  /** A minimal reader of the workout route's `exercise` parameter: the rest of
      the path, when it consists of plain characters only. */
  function ReadExerciseParam(path: string): Option<string> {
    if WorkoutRoute <= path && forall i :: |WorkoutRoute| <= i < |path| ==> PlainQueryChar(path[i]) then
      Some(path[|WorkoutRoute|..])
    else None
  }

  /** The workout page reads back the id a card put in the link; a card of an
      exercise the workout table lacks (Lunges, id "3") opens an unbound session. */
  lemma CardLinkSelects(e: Exercise)
    requires e in LibraryExercises
    ensures WorkoutSession.ExerciseIdFromQuery(ReadExerciseParam(WorkoutPath(e.id))) == e.id
    ensures WorkoutSession.FindExercise(WorkoutSession.WorkoutExercises, e.id) ==
      if e.id == "3" then None else Some(e)
  {
    WorkoutSession.WorkoutTableLookup(e.id);
    var p := WorkoutPath(e.id);
    assert p[|WorkoutRoute|..] == e.id;
    assert forall i :: |WorkoutRoute| <= i < |p| ==> p[i] == e.id[i - |WorkoutRoute|];
  }
}
