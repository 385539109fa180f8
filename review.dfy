// frontend/screens/Review.tsx: the glossary of concepts the player has
// unlocked, its search and type filter, the mastery tier of each card and the
// grouping of the cards by concept type. The curriculum is a parameter.

module Review {
  import opened Types
  import opened Text
  import Game

  // ---------------------------------------------------------------- unlocked concepts

  /** The terms of a list of concepts. */
  function TermsOf(cs: seq<ReviewConcept>): set<string> {
    set c | c in cs :: c.term
  }

  /** No term occurs twice. */
  predicate DistinctTerms(cs: seq<ReviewConcept>) {
    forall i, j :: 0 <= i < j < |cs| ==> cs[i].term != cs[j].term
  }

  /** The learnable concepts of the completed levels, in level order, repeats included. */
  function Candidates(levels: seq<Level>, completed: seq<int>): seq<ReviewConcept>
    decreases |levels|
  {
    if levels == [] then []
    else
      var last := levels[|levels| - 1];
      Candidates(levels[..|levels| - 1], completed) + (if last.id in completed then last.learnableConcepts else [])
  }

  /** Walking `cs` from the list `acc`, appending each concept whose term is not yet listed. */
  function Keep(acc: seq<ReviewConcept>, cs: seq<ReviewConcept>): seq<ReviewConcept>
    decreases |cs|
  {
    if cs == [] then acc
    else
      var p := Keep(acc, cs[..|cs| - 1]);
      var c := cs[|cs| - 1];
      if c.term in TermsOf(p) then p else p + [c]
  }

  /** `unlockedConcepts`: the concepts of completed levels with repeated terms dropped. */
  function Unlocked(curriculum: seq<Unit>, completed: seq<int>): seq<ReviewConcept> {
    Keep([], Candidates(AllLevels(curriculum), completed))
  }

  lemma {:induction false} KeepAppend(acc: seq<ReviewConcept>, a: seq<ReviewConcept>, b: seq<ReviewConcept>)
    decreases |b|
    ensures Keep(acc, a + b) == Keep(Keep(acc, a), b)
  {
    if b == [] {
      assert a + b == a;
    } else {
      assert (a + b)[..|a + b| - 1] == a + b[..|b| - 1];
      KeepAppend(acc, a, b[..|b| - 1]);
    }
  }

  /** The walk only appends to `acc`. */
  lemma {:induction false} KeepPrefix(acc: seq<ReviewConcept>, cs: seq<ReviewConcept>)
    decreases |cs|
    ensures |Keep(acc, cs)| >= |acc| && Keep(acc, cs)[..|acc|] == acc
  {
    if cs != [] {
      var init := cs[..|cs| - 1];
      var c := cs[|cs| - 1];
      KeepPrefix(acc, init);
      var p := Keep(acc, init);
      if c.term !in TermsOf(p) {
        assert (p + [c])[..|acc|] == p[..|acc|];
      }
    }
  }

  /** The walk lists the terms of `acc` and `cs`, and only their concepts. */
  lemma {:induction false} KeepTerms(acc: seq<ReviewConcept>, cs: seq<ReviewConcept>)
    decreases |cs|
    ensures TermsOf(Keep(acc, cs)) == TermsOf(acc) + TermsOf(cs)
    ensures forall c :: c in Keep(acc, cs) ==> c in acc || c in cs
  {
    if cs != [] {
      var init := cs[..|cs| - 1];
      var c := cs[|cs| - 1];
      KeepTerms(acc, init);
      assert cs == init + [c];
      assert TermsOf(cs) == TermsOf(init) + {c.term};
    }
  }

  /** Starting from distinct terms, the walk keeps them distinct. */
  lemma {:induction false} KeepDistinct(acc: seq<ReviewConcept>, cs: seq<ReviewConcept>)
    decreases |cs|
    requires DistinctTerms(acc)
    ensures DistinctTerms(Keep(acc, cs))
  {
    if cs != [] {
      var init := cs[..|cs| - 1];
      var c := cs[|cs| - 1];
      KeepDistinct(acc, init);
      var p := Keep(acc, init);
      if c.term !in TermsOf(p) {
        forall i, j | 0 <= i < j < |p + [c]| ensures (p + [c])[i].term != (p + [c])[j].term {
          if j == |p| {
            assert p[i] in p;
          } else {
            assert (p + [c])[i] == p[i] && (p + [c])[j] == p[j];
          }
        }
      }
    }
  }

  /** The walk extends `acc`, lists exactly the terms met, takes concepts only from
      its inputs and keeps terms distinct. */
  lemma KeepShape(acc: seq<ReviewConcept>, cs: seq<ReviewConcept>)
    ensures |Keep(acc, cs)| >= |acc| && Keep(acc, cs)[..|acc|] == acc
    ensures TermsOf(Keep(acc, cs)) == TermsOf(acc) + TermsOf(cs)
    ensures forall c :: c in Keep(acc, cs) ==> c in acc || c in cs
    ensures DistinctTerms(acc) ==> DistinctTerms(Keep(acc, cs))
  {
    KeepPrefix(acc, cs);
    KeepTerms(acc, cs);
    if DistinctTerms(acc) {
      KeepDistinct(acc, cs);
    }
  }

  /** The first concept with a given term that is not already in `acc` is kept. */
  lemma {:induction false} KeepFirst(acc: seq<ReviewConcept>, cs: seq<ReviewConcept>, i: nat)
    decreases |cs|
    requires i < |cs| && cs[i].term !in TermsOf(acc)
    requires forall j :: 0 <= j < i ==> cs[j].term != cs[i].term
    ensures cs[i] in Keep(acc, cs)
  {
    var init := cs[..|cs| - 1];
    var p := Keep(acc, init);
    if i == |cs| - 1 {
      KeepShape(acc, init);
      assert forall j :: 0 <= j < |init| ==> init[j].term != cs[i].term;
      assert cs[i].term !in TermsOf(init);
    } else {
      KeepFirst(acc, init, i);
    }
  }

  /** Appending an element to both sides keeps a subsequence. */
  lemma {:induction false} SubsequenceSnoc<T>(a: seq<T>, b: seq<T>, x: T)
    decreases |b|
    requires IsSubsequence(a, b)
    ensures IsSubsequence(a + [x], b + [x])
  {
    if a == [] {
      assert a + [x] == [x];
      SubsequenceOfSingleton(b, x);
    } else {
      assert b != [];
      assert (b + [x])[1..] == b[1..] + [x];
      assert (a + [x])[1..] == a[1..] + [x];
      if a[0] == b[0] && IsSubsequence(a[1..], b[1..]) {
        SubsequenceSnoc(a[1..], b[1..], x);
      } else {
        SubsequenceSnoc(a, b[1..], x);
      }
    }
  }

  lemma {:induction false} SubsequenceOfSingleton<T>(b: seq<T>, x: T)
    decreases |b|
    ensures IsSubsequence([x], b + [x])
  {
    if b == [] {
      assert IsSubsequence([x][1..], []);
    } else {
      assert (b + [x])[1..] == b[1..] + [x];
      SubsequenceOfSingleton(b[1..], x);
    }
  }

  /** Appending an element to the longer side keeps a subsequence. */
  lemma {:induction false} SubsequenceExtend<T>(a: seq<T>, b: seq<T>, x: T)
    decreases |b|
    requires IsSubsequence(a, b)
    ensures IsSubsequence(a, b + [x])
  {
    if a != [] {
      assert b != [];
      assert (b + [x])[1..] == b[1..] + [x];
      if a[0] == b[0] && IsSubsequence(a[1..], b[1..]) {
        SubsequenceExtend(a[1..], b[1..], x);
      } else {
        SubsequenceExtend(a, b[1..], x);
      }
    }
  }

  /** From an empty start, the kept list is an order-preserving selection of the input. */
  lemma {:induction false} KeepIsSubsequence(cs: seq<ReviewConcept>)
    decreases |cs|
    ensures IsSubsequence(Keep([], cs), cs)
  {
    if cs != [] {
      var init := cs[..|cs| - 1];
      var c := cs[|cs| - 1];
      KeepIsSubsequence(init);
      assert cs == init + [c];
      if c.term in TermsOf(Keep([], init)) {
        SubsequenceExtend(Keep([], init), init, c);
      } else {
        SubsequenceSnoc(Keep([], init), init, c);
      }
    }
  }

  /** `unlockedConcepts` lists the concepts of the completed levels in curriculum
      order, each term once, keeping the first concept met with each term. */
  lemma UnlockedSpec(curriculum: seq<Unit>, completed: seq<int>)
    ensures var s, r := Candidates(AllLevels(curriculum), completed), Unlocked(curriculum, completed);
      && IsSubsequence(r, s)
      && DistinctTerms(r)
      && TermsOf(r) == TermsOf(s)
      && (forall i :: 0 <= i < |s| && (forall j :: 0 <= j < i ==> s[j].term != s[i].term) ==> s[i] in r)
  {
    var s := Candidates(AllLevels(curriculum), completed);
    KeepShape([], s);
    KeepIsSubsequence(s);
    forall i | 0 <= i < |s| && (forall j :: 0 <= j < i ==> s[j].term != s[i].term)
      ensures s[i] in Unlocked(curriculum, completed)
    {
      KeepFirst([], s, i);
    }
  }

  /** A completed level's concepts are all among the unlocked terms. */
  lemma {:induction false} CandidatesContain(levels: seq<Level>, completed: seq<int>, k: nat)
    decreases |levels|
    requires k < |levels| && levels[k].id in completed
    ensures forall c :: c in levels[k].learnableConcepts ==> c in Candidates(levels, completed)
  {
    if k < |levels| - 1 {
      CandidatesContain(levels[..|levels| - 1], completed, k);
    }
  }

  lemma {:induction false} CandidatesAppend(a: seq<Level>, b: seq<Level>, completed: seq<int>)
    decreases |b|
    ensures Candidates(a + b, completed) == Candidates(a, completed) + Candidates(b, completed)
  {
    if b == [] {
      assert a + b == a;
    } else {
      assert (a + b)[..|a + b| - 1] == a + b[..|b| - 1];
      CandidatesAppend(a, b[..|b| - 1], completed);
    }
  }

  /** The innermost loop: each concept of one level whose term is unseen is appended. */
  method AbsorbConcepts(concepts: seq<ReviewConcept>, seen: set<string>, lc: seq<ReviewConcept>)
    returns (concepts': seq<ReviewConcept>, seen': set<string>)
    requires seen == TermsOf(concepts)
    ensures concepts' == Keep(concepts, lc) && seen' == TermsOf(concepts')
  {
    concepts', seen' := concepts, seen;
    for k := 0 to |lc|
      invariant concepts' == Keep(concepts, lc[..k])
      invariant seen' == TermsOf(concepts')
    {
      var c := lc[k];
      assert lc[..k + 1][..k] == lc[..k];
      if c.term !in seen' {
        concepts' := concepts' + [c];
        seen' := seen' + {c.term};
      }
    }
    assert lc[..|lc|] == lc;
  }

  /** The middle loop: the concepts of the completed levels of one unit. */
  method AbsorbLevels(concepts: seq<ReviewConcept>, seen: set<string>, levels: seq<Level>, completed: seq<int>)
    returns (concepts': seq<ReviewConcept>, seen': set<string>)
    requires seen == TermsOf(concepts)
    ensures concepts' == Keep(concepts, Candidates(levels, completed)) && seen' == TermsOf(concepts')
  {
    concepts', seen' := concepts, seen;
    for l := 0 to |levels|
      invariant concepts' == Keep(concepts, Candidates(levels[..l], completed))
      invariant seen' == TermsOf(concepts')
    {
      var level := levels[l];
      assert levels[..l + 1][..l] == levels[..l];
      if level.id in completed {
        assert Candidates(levels[..l + 1], completed) == Candidates(levels[..l], completed) + level.learnableConcepts;
        KeepAppend(concepts, Candidates(levels[..l], completed), level.learnableConcepts);
        concepts', seen' := AbsorbConcepts(concepts', seen', level.learnableConcepts);
        assert concepts' == Keep(concepts, Candidates(levels[..l + 1], completed));
      } else {
        assert Candidates(levels[..l + 1], completed) == Candidates(levels[..l], completed) + [];
        assert Candidates(levels[..l], completed) + [] == Candidates(levels[..l], completed);
      }
    }
    assert levels[..|levels|] == levels;
  }

  /** The nested loops of `unlockedConcepts` with their `seen` set. */
  method UnlockedConcepts(curriculum: seq<Unit>, completed: seq<int>) returns (concepts: seq<ReviewConcept>)
    ensures concepts == Unlocked(curriculum, completed)
  {
    concepts := [];
    var seen: set<string> := {};
    for u := 0 to |curriculum|
      invariant concepts == Keep([], Candidates(AllLevels(curriculum[..u]), completed))
      invariant seen == TermsOf(concepts)
    {
      var unit := curriculum[u];
      assert curriculum[..u + 1][..u] == curriculum[..u];
      CandidatesAppend(AllLevels(curriculum[..u]), unit.levels, completed);
      KeepAppend([], Candidates(AllLevels(curriculum[..u]), completed), Candidates(unit.levels, completed));
      concepts, seen := AbsorbLevels(concepts, seen, unit.levels, completed);
    }
    assert curriculum[..|curriculum|] == curriculum;
  }

  // ---------------------------------------------------------------- search and filter

  /** The type chips: every type, or one of them. */
  datatype TypeFilter = AllTypes | OnlyType(kind: ConceptType)

  /** The search text occurs, ignoring case, in the term or the definition. */
  predicate MatchesSearch(c: ReviewConcept, search: string) {
    Contains(Lower(c.term), Lower(search)) || Contains(Lower(c.definition), Lower(search))
  }

  predicate MatchesFilter(c: ReviewConcept, f: TypeFilter) {
    f.AllTypes? || c.kind == f.kind
  }

  /** `filteredConcepts`. */
  function FilterConcepts(cs: seq<ReviewConcept>, search: string, f: TypeFilter): seq<ReviewConcept>
    decreases |cs|
  {
    if cs == [] then []
    else
      var head := if MatchesSearch(cs[0], search) && MatchesFilter(cs[0], f) then [cs[0]] else [];
      head + FilterConcepts(cs[1..], search, f)
  }

  lemma ContainsEmpty(s: string)
    ensures Contains(s, "")
  {
    assert StartsWith(s, "");
  }

  /** The filtered list keeps, in order, exactly the concepts that match both the
      search and the type chip; an empty search with every type keeps all. */
  lemma {:induction false} FilterConceptsSpec(cs: seq<ReviewConcept>, search: string, f: TypeFilter)
    decreases |cs|
    ensures var r := FilterConcepts(cs, search, f);
      && IsSubsequence(r, cs)
      && (forall c :: c in r <==> c in cs && MatchesSearch(c, search) && MatchesFilter(c, f))
      && (search == "" && f.AllTypes? ==> r == cs)
  {
    if cs != [] {
      FilterConceptsSpec(cs[1..], search, f);
      var r := FilterConcepts(cs, search, f);
      var rest := FilterConcepts(cs[1..], search, f);
      assert cs == [cs[0]] + cs[1..];
      if MatchesSearch(cs[0], search) && MatchesFilter(cs[0], f) {
        assert r[0] == cs[0] && r[1..] == rest;
      } else {
        assert r == rest;
        assert IsSubsequence(r, cs) by {
          if r != [] {
            assert IsSubsequence(r, cs[1..]);
          }
        }
      }
      if search == "" {
        ContainsEmpty(Lower(cs[0].term));
      }
    }
  }

  // ---------------------------------------------------------------- mastery tiers

  datatype Tier = Novato | Aprendiz | Avancado | Mestre

  /** `getMasteryLevel`. */
  function MasteryTier(mastery: int): Tier {
    if mastery >= 100 then Mestre
    else if mastery >= 70 then Avancado
    else if mastery >= 30 then Aprendiz
    else Novato
  }

  function TierRank(t: Tier): nat {
    match t
    case Novato => 0
    case Aprendiz => 1
    case Avancado => 2
    case Mestre => 3
  }

  /** The tier of a concept's card, whose mastery reads as 0 when it has no entry. */
  function CardTier(mastery: map<string, int>, term: string): Tier {
    MasteryTier(Game.Score(mastery, term))
  }

  /** More mastery never lowers the tier; a concept never practised is a novice's. */
  lemma MasteryTierSpec(a: int, b: int, mastery: map<string, int>, term: string)
    requires a <= b
    ensures TierRank(MasteryTier(a)) <= TierRank(MasteryTier(b))
    ensures term !in mastery ==> CardTier(mastery, term) == Novato
  {
  }

  // ---------------------------------------------------------------- grouping

  /** The concepts of one type, in order. */
  function Group(cs: seq<ReviewConcept>, kind: ConceptType): seq<ReviewConcept>
    decreases |cs|
  {
    if cs == [] then [] else (if cs[0].kind == kind then [cs[0]] else []) + Group(cs[1..], kind)
  }

  /** A group holds each concept of its type as often as the list does, and no other. */
  lemma {:induction false} GroupCount(cs: seq<ReviewConcept>, kind: ConceptType, x: ReviewConcept)
    decreases |cs|
    ensures multiset(Group(cs, kind))[x] == if x.kind == kind then multiset(cs)[x] else 0
  {
    if cs != [] {
      GroupCount(cs[1..], kind, x);
      assert cs == [cs[0]] + cs[1..];
      assert multiset(cs)[x] == multiset{cs[0]}[x] + multiset(cs[1..])[x];
      var h := if cs[0].kind == kind then [cs[0]] else [];
      assert multiset(Group(cs, kind))[x] == multiset(h)[x] + multiset(Group(cs[1..], kind))[x];
    }
  }

  /** The three groups together hold every concept exactly as often as the list does. */
  lemma GroupsPartition(cs: seq<ReviewConcept>)
    ensures multiset(Group(cs, Logic)) + multiset(Group(cs, Syntax)) + multiset(Group(cs, English)) == multiset(cs)
  {
    forall x ensures (multiset(Group(cs, Logic)) + multiset(Group(cs, Syntax)) + multiset(Group(cs, English)))[x] == multiset(cs)[x] {
      GroupCount(cs, Logic, x);
      GroupCount(cs, Syntax, x);
      GroupCount(cs, English, x);
    }
  }

  /** A group holds only concepts of its type, taken from the list. */
  lemma {:induction false} GroupMembers(cs: seq<ReviewConcept>, kind: ConceptType, c: ReviewConcept)
    decreases |cs|
    requires c in Group(cs, kind)
    ensures c.kind == kind && c in cs
  {
    if c != cs[0] || cs[0].kind != kind {
      GroupMembers(cs[1..], kind, c);
    }
  }
}
