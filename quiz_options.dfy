/**
  The option generator of server.js: the in-place Fisher-Yates shuffle,
  sampling without replacement with an exclusion list, and the quiz builder
  that surrounds the correct country with three distractors, preferring the
  members of its confusion group.

  `Math.random()` is modelled by a nondeterministic choice of an index in the
  range that `Math.floor(Math.random() * n)` draws from, so every contract
  below holds for every outcome of the random source. The source only
  compares country names for equality, so the names are of any type `T` with
  equality; the server instantiates it with `string`.
*/
module QuizOptions {
  import opened Wrappers

  /** A confusion group of groups.js: its key and the country names it lists. */
  datatype Group<T> = Group(key: string, members: seq<T>)

  /** `requiredDistractors` in generateQuizOptions. */
  const REQUIRED_DISTRACTORS := 3
  /** The number of options a round shows. */
  const OPTION_COUNT := 4

  function Min(a: int, b: int): int
  {
    if a < b then a else b
  }

  /** No name occurs twice in `s`. */
  ghost predicate Distinct<T(!new)>(s: seq<T>)
  {
    forall x :: multiset(s)[x] <= 1
  }

  /** `source.filter(item => !exclude.includes(item))`: every occurrence of a
      name outside `exclude` is kept, every occurrence of a name in it dropped. */
  function Without<T(==,!new)>(source: seq<T>, exclude: seq<T>): (r: seq<T>)
    ensures forall x :: multiset(r)[x] == if x in exclude then 0 else multiset(source)[x]
    ensures forall x :: x in r <==> x in source && x !in exclude
    ensures |r| <= |source|
  {
    if source == [] then []
    else
      assert source == [source[0]] + source[1..];
      if source[0] in exclude then Without(source[1..], exclude)
      else [source[0]] + Without(source[1..], exclude)
  }

  /** Filtering out a name that does not occur gives back the list itself. */
  lemma {:induction false} WithoutAbsent<T(!new)>(s: seq<T>, c: T)
    requires c !in s
    ensures Without(s, [c]) == s
  {
    if s != [] {
      WithoutAbsent(s[1..], c);
    }
  }

  /** Filtering one name out of a list without repeats loses at most one entry.
      So a country list of at least four distinct names leaves at least three
      candidates besides the correct country. */
  lemma {:induction false} WithoutOneOfDistinct<T(!new)>(s: seq<T>, c: T)
    requires Distinct(s)
    ensures |Without(s, [c])| >= |s| - 1
  {
    if s != [] {
      assert s == [s[0]] + s[1..];
      assert Distinct(s[1..]) by {
        forall x ensures multiset(s[1..])[x] <= 1 {
          assert multiset(s)[x] == multiset([s[0]])[x] + multiset(s[1..])[x];
        }
      }
      if s[0] == c {
        assert multiset(s)[c] == 1 + multiset(s[1..])[c];
        WithoutAbsent(s[1..], c);
      } else {
        WithoutOneOfDistinct(s[1..], c);
      }
    }
  }

  /** A country list of at least four distinct names leaves three candidates
      besides any correct country, so generateQuizOptions then has its four
      options. */
  lemma EnoughDistinctNames<T(!new)>(allNames: seq<T>, correct: T)
    requires Distinct(allNames) && |allNames| >= OPTION_COUNT
    ensures |Without(allNames, [correct])| >= REQUIRED_DISTRACTORS
  {
    WithoutOneOfDistinct(allNames, correct);
  }

  /** shuffleArray (Fisher-Yates, in place): the array ends as a permutation of
      what it held. */
  method ShuffleArray<T>(a: array<T>)
    modifies a
    ensures multiset(a[..]) == old(multiset(a[..]))
  {
    var i := a.Length - 1;
    while i > 0
      invariant -1 <= i < a.Length
      invariant multiset(a[..]) == old(multiset(a[..]))
    {
      var j :| 0 <= j <= i;
      a[i], a[j] := a[j], a[i];
      i := i - 1;
    }
  }

  /** `shuffleArray([...s])`: a shuffled copy; `s` itself is left as it is. */
  method ShuffledCopy<T>(s: seq<T>) returns (r: seq<T>)
    ensures |r| == |s|
    ensures multiset(r) == multiset(s)
  {
    var a := new T[|s|](i requires 0 <= i < |s| => s[i]);
    assert a[..] == s;
    ShuffleArray(a);
    r := a[..];
  }

  /** `pool.splice(k, 1)`: removing one entry takes exactly it out of the
      multiset and shortens the list by one. */
  lemma SpliceOut<T>(pool: seq<T>, k: int)
    requires 0 <= k < |pool|
    ensures multiset(pool[..k] + pool[k + 1..]) + multiset{pool[k]} == multiset(pool)
    ensures |pool[..k] + pool[k + 1..]| == |pool| - 1
  {
    assert pool == pool[..k] + [pool[k]] + pool[k + 1..];
  }

  /** selectUniqueRandom: draws `min(count, |pool|)` entries of the pool
      `Without(source, exclude)`, removing each one it draws, so no entry of
      the pool is drawn twice. */
  method SelectUniqueRandom<T(==,!new)>(source: seq<T>, count: int, exclude: seq<T>)
    returns (selected: seq<T>)
    ensures |selected| == if count <= 0 then 0 else Min(count, |Without(source, exclude)|)
    ensures multiset(selected) <= multiset(Without(source, exclude))
    ensures forall x :: x in selected ==> x in source && x !in exclude
  {
    var pool := Without(source, exclude);
    ghost var full := pool;
    selected := [];
    var maxSelect := Min(count, |pool|);
    while |selected| < maxSelect
      invariant multiset(selected) + multiset(pool) == multiset(full)
      invariant |selected| + |pool| == |full|
      invariant maxSelect <= |full|
      invariant |selected| <= maxSelect || selected == []
      decreases |pool|
    {
      var k :| 0 <= k < |pool|;
      var item := pool[k];
      SpliceOut(pool, k);
      pool := pool[..k] + pool[k + 1..];
      selected := selected + [item];
    }
    forall x | x in selected
      ensures x in full
    {
      assert x in multiset(selected);
      assert x in multiset(full);
    }
  }

  /** Group number `i` is the first, in key order, that lists `country`. */
  ghost predicate FirstGroupWith<T(!new)>(groups: seq<Group<T>>, country: T, i: int)
  {
    && 0 <= i < |groups|
    && country in groups[i].members
    && forall j :: 0 <= j < i ==> country !in groups[j].members
  }

  /** `x` is listed by the first group that lists `country`. */
  ghost predicate InFirstGroup<T(!new)>(groups: seq<Group<T>>, country: T, x: T)
  {
    exists i :: FirstGroupWith(groups, country, i) && x in groups[i].members
  }

  lemma FirstGroupUnique<T(!new)>(groups: seq<Group<T>>, country: T, i: int, j: int)
    requires FirstGroupWith(groups, country, i) && FirstGroupWith(groups, country, j)
    ensures i == j
  {
  }

  /** The `for (const key in CONFUSION_GROUPS_MAP)` search with its `break`:
      the first group that lists the country, or none. */
  method FindGroup<T(==,!new)>(groups: seq<Group<T>>, country: T) returns (found: Option<nat>)
    ensures found.Some? ==> FirstGroupWith(groups, country, found.value)
    ensures found.None? ==> forall j :: 0 <= j < |groups| ==> country !in groups[j].members
  {
    found := None;
    var i := 0;
    while i < |groups|
      invariant 0 <= i <= |groups|
      invariant forall j :: 0 <= j < i ==> country !in groups[j].members
    {
      if country in groups[i].members {
        found := Some(i);
        return;
      }
      i := i + 1;
    }
  }

  /** A sub-bag of a list without repeats has no repeats. */
  lemma DistinctSub<T(!new)>(a: seq<T>, b: seq<T>)
    requires multiset(a) <= multiset(b) && Distinct(b)
    ensures Distinct(a)
  {
    forall x ensures multiset(a)[x] <= 1 {
      assert multiset(a)[x] <= multiset(b)[x];
    }
  }

  /** Two disjoint lists without repeats join into one. */
  lemma DistinctJoin<T(!new)>(a: seq<T>, b: seq<T>)
    requires Distinct(a) && Distinct(b)
    requires forall x :: x in a ==> x !in b
    ensures Distinct(a + b)
  {
    forall x ensures multiset(a + b)[x] <= 1 {
      assert multiset(a + b)[x] == multiset(a)[x] + multiset(b)[x];
      if x in a {
        assert multiset(b)[x] == 0;
      }
    }
  }

  /** Steps 1 and 2 of generateQuizOptions: up to three distinct draws from
      the first confusion group that lists the correct country, the country
      itself left out; none when no group lists it. */
  method GroupDistractors<T(==,!new)>(correct: T, groups: seq<Group<T>>) returns (similar: seq<T>)
    ensures |similar| <= REQUIRED_DISTRACTORS
    ensures forall x :: x in similar ==> x != correct && InFirstGroup(groups, correct, x)
    ensures (forall j :: 0 <= j < |groups| ==> correct !in groups[j].members) ==> similar == []
    ensures forall i :: FirstGroupWith(groups, correct, i)
              ==> |similar| == Min(REQUIRED_DISTRACTORS, |Without(groups[i].members, [correct])|)
    ensures (forall g :: g in groups ==> Distinct(g.members)) ==> Distinct(similar)
  {
    similar := [];
    var found := FindGroup(groups, correct);
    if found.Some? {
      var groupPool := Without(groups[found.value].members, [correct]);
      similar := SelectUniqueRandom(groupPool, REQUIRED_DISTRACTORS, []);
      assert multiset(Without(groupPool, [])) == multiset(groupPool);
      forall i | FirstGroupWith(groups, correct, i)
        ensures i == found.value
      {
        FirstGroupUnique(groups, correct, i, found.value);
      }
      if forall g :: g in groups ==> Distinct(g.members) {
        assert groups[found.value] in groups;
        DistinctSub(similar, groupPool);
      }
    }
  }

  /** Steps 1 to 3 of generateQuizOptions: the correct country followed by the
      group distractors, topped up to three distractors from the whole list,
      excluding every name already chosen. */
  method AssembleOptions<T(==,!new)>(correct: T, allNames: seq<T>, groups: seq<Group<T>>)
    returns (assembled: seq<T>)
    ensures 1 <= |assembled| <= OPTION_COUNT && assembled[0] == correct
    ensures multiset(assembled)[correct] == 1
    ensures forall x :: x in assembled && x != correct ==> x in allNames || InFirstGroup(groups, correct, x)
    ensures forall i :: FirstGroupWith(groups, correct, i) && |Without(groups[i].members, [correct])| >= REQUIRED_DISTRACTORS
              ==> |assembled| == OPTION_COUNT && forall x :: x in assembled && x != correct ==> x in groups[i].members
    ensures Distinct(allNames) && (forall g :: g in groups ==> Distinct(g.members)) ==> Distinct(assembled)
  {
    var similar := GroupDistractors(correct, groups);
    var outliers: seq<T> := [];
    var remainingSlots := REQUIRED_DISTRACTORS - |similar|;
    if remainingSlots > 0 {
      outliers := SelectUniqueRandom(allNames, remainingSlots, [correct] + similar);
      if Distinct(allNames) {
        DistinctSub(outliers, allNames);
      }
    }
    assert correct !in similar && correct !in outliers;
    assembled := [correct] + similar + outliers;
    assert multiset(assembled) == multiset([correct]) + multiset(similar) + multiset(outliers);
    forall x | x in assembled && x != correct
      ensures x in allNames || InFirstGroup(groups, correct, x)
    {
      assert x in similar || x in outliers;
    }
    forall i | FirstGroupWith(groups, correct, i) && |Without(groups[i].members, [correct])| >= REQUIRED_DISTRACTORS
      ensures |assembled| == OPTION_COUNT && forall x :: x in assembled && x != correct ==> x in groups[i].members
    {
      assert outliers == [];
      forall x | x in assembled && x != correct
        ensures x in groups[i].members
      {
        assert x in similar;
        var k :| FirstGroupWith(groups, correct, k) && x in groups[k].members;
        FirstGroupUnique(groups, correct, i, k);
      }
    }
    if Distinct(allNames) && (forall g :: g in groups ==> Distinct(g.members)) {
      DistinctJoin([correct], similar);
      DistinctJoin([correct] + similar, outliers);
    }
  }

  /** generateQuizOptions. The correct country appears exactly once; every
      other option is a member of its first confusion group or a name of the
      country list; there are never more than four options, and exactly four
      whenever the list names three countries besides the correct one; when the
      group alone supplies three candidates, every distractor comes from it; and
      when the list and the groups repeat no name, neither do the options. */
  method GenerateQuizOptions<T(==,!new)>(correct: T, allNames: seq<T>, groups: seq<Group<T>>)
    returns (options: seq<T>)
    ensures multiset(options)[correct] == 1
    ensures forall x :: x in options && x != correct ==> x in allNames || InFirstGroup(groups, correct, x)
    ensures |options| <= OPTION_COUNT
    ensures |Without(allNames, [correct])| >= REQUIRED_DISTRACTORS ==> |options| == OPTION_COUNT
    ensures forall i :: FirstGroupWith(groups, correct, i) && |Without(groups[i].members, [correct])| >= REQUIRED_DISTRACTORS
              ==> forall x :: x in options && x != correct ==> x in groups[i].members
    ensures Distinct(allNames) && (forall g :: g in groups ==> Distinct(g.members)) ==> Distinct(options)
  {
    var finalOptions := AssembleOptions(correct, allNames, groups);
    if |finalOptions| != OPTION_COUNT {
      var backup := SelectUniqueRandom(allNames, REQUIRED_DISTRACTORS, [correct]);
      var fallback := [correct] + backup;
      assert multiset(fallback) == multiset([correct]) + multiset(backup);
      if Distinct(allNames) {
        DistinctSub(backup, allNames);
        DistinctJoin([correct], backup);
      }
      options := ShuffledCopy(fallback);
      if Distinct(allNames) {
        DistinctSub(options, fallback);
      }
      assert forall x :: x in options ==> x in fallback by {
        forall x | x in options ensures x in fallback {
          assert multiset(options)[x] > 0;
        }
      }
    } else {
      options := ShuffledCopy(finalOptions);
      assert forall x :: x in options ==> x in finalOptions by {
        forall x | x in options ensures x in finalOptions {
          assert multiset(options)[x] > 0;
        }
      }
      if Distinct(allNames) && (forall g :: g in groups ==> Distinct(g.members)) {
        DistinctSub(options, finalOptions);
      }
    }
  }
}
