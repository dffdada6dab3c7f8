/**
 * Problem selection: `get_problems_list` after its HTTP call (drop paid-only
 * records, project each to (slug, difficulty, frontend_id, title), stable-sort
 * by (difficulty, frontend_id)) and the slice `problems[:NUM_QUESTIONS]` in `main`.
 */
module Problems {
  import opened Wrappers

  /** How many problems one run turns into videos (NUM_QUESTIONS). */
  const NumQuestions: nat := 2

  /** One already-parsed entry of the problem list ("stat_status_pairs"). */
  datatype Record = Record(slug: string, title: string, level: int, frontendId: int, paidOnly: bool)

  /** The answer of the problem-list endpoint: its HTTP status and its parsed records. */
  datatype Response = Response(status: int, records: seq<Record>)

  datatype FetchError = CouldNotFetch

  /** The tuple (title_slug, difficulty, frontend_id, title) kept for a free problem. */
  datatype Problem = Problem(slug: string, difficulty: int, frontendId: int, title: string)

  function Project(r: Record): Problem {
    Problem(r.slug, r.level, r.frontendId, r.title)
  }

  // ----- filtering ---------------------------------------------------------

  /** The projections of the free records, in input order (what the loop appends). */
  function FreeProblems(rs: seq<Record>): seq<Problem> {
    if rs == [] then []
    else
      var last := rs[|rs| - 1];
      FreeProblems(rs[..|rs| - 1]) + (if last.paidOnly then [] else [Project(last)])
  }

  /** The positions of the free records, in input order. */
  function FreeIndices(rs: seq<Record>): seq<nat> {
    if rs == [] then []
    else
      var n := |rs| - 1;
      FreeIndices(rs[..n]) + (if rs[n].paidOnly then [] else [n])
  }

  /**
   * The free positions are exactly the positions of records that are not paid-only,
   * each listed once and in increasing order.
   */
  lemma {:induction false} FreeIndicesExact(rs: seq<Record>)
    ensures forall a, b :: 0 <= a < b < |FreeIndices(rs)| ==> FreeIndices(rs)[a] < FreeIndices(rs)[b]
    ensures forall i :: i in FreeIndices(rs) <==> 0 <= i < |rs| && !rs[i].paidOnly
  {
    if rs != [] {
      var n := |rs| - 1;
      var prefix := FreeIndices(rs[..n]);
      FreeIndicesExact(rs[..n]);
      forall a | 0 <= a < |prefix|
        ensures prefix[a] < n
      {
        assert prefix[a] in prefix;
      }
      forall i | 0 <= i < n
        ensures rs[..n][i] == rs[i]
      {
      }
    }
  }

  /** The j-th kept problem is the projection of the j-th free record. */
  lemma {:induction false} FreeProblemsFollowIndices(rs: seq<Record>)
    ensures |FreeProblems(rs)| == |FreeIndices(rs)|
    ensures forall j :: 0 <= j < |FreeIndices(rs)| ==>
      FreeIndices(rs)[j] < |rs| && FreeProblems(rs)[j] == Project(rs[FreeIndices(rs)[j]])
  {
    if rs != [] {
      var n := |rs| - 1;
      FreeProblemsFollowIndices(rs[..n]);
      FreeIndicesExact(rs[..n]);
    }
  }

  /** Every kept problem comes from a record that is not paid-only, and every such record is kept. */
  lemma FreeProblemsMembers(rs: seq<Record>, p: Problem)
    ensures p in FreeProblems(rs) <==> exists i :: 0 <= i < |rs| && !rs[i].paidOnly && Project(rs[i]) == p
  {
    FreeProblemsFollowIndices(rs);
    FreeIndicesExact(rs);
  }

  // ----- sorting -----------------------------------------------------------

  /** The sort key (difficulty, frontend_id). */
  function Key(p: Problem): (int, int) {
    (p.difficulty, p.frontendId)
  }

  /** Lexicographic order on keys, as Python compares tuples. */
  predicate KeyLe(a: (int, int), b: (int, int)) {
    a.0 < b.0 || (a.0 == b.0 && a.1 <= b.1)
  }

  predicate SortedByKey(s: seq<Problem>) {
    forall i, j :: 0 <= i < j < |s| ==> KeyLe(Key(s[i]), Key(s[j]))
  }

  /** The subsequence of `s` whose key is `k`: a stable sort leaves it unchanged. */
  function WithKey(s: seq<Problem>, k: (int, int)): (r: seq<Problem>)
    ensures forall e :: e in r ==> e in s && Key(e) == k
  {
    if s == [] then [] else (if Key(s[0]) == k then [s[0]] else []) + WithKey(s[1..], k)
  }

  /** Puts `x` before the first element whose key is not smaller, so after all smaller ones. */
  function Insert(x: Problem, t: seq<Problem>): seq<Problem> {
    if t == [] || KeyLe(Key(x), Key(t[0])) then [x] + t
    else [t[0]] + Insert(x, t[1..])
  }

  lemma {:induction false} InsertPermutes(x: Problem, t: seq<Problem>)
    ensures multiset(Insert(x, t)) == multiset(t) + multiset{x}
  {
    if t != [] && !KeyLe(Key(x), Key(t[0])) {
      InsertPermutes(x, t[1..]);
      assert t == [t[0]] + t[1..];
    }
  }

  lemma {:induction false} InsertSorted(x: Problem, t: seq<Problem>)
    requires SortedByKey(t)
    ensures SortedByKey(Insert(x, t))
  {
    if t != [] && !KeyLe(Key(x), Key(t[0])) {
      var rest := Insert(x, t[1..]);
      InsertSorted(x, t[1..]);
      InsertPermutes(x, t[1..]);
      forall e | e in rest
        ensures KeyLe(Key(t[0]), Key(e))
      {
        assert e in multiset(rest);
        if e != x {
          assert e in multiset(t[1..]);
          var j :| 0 <= j < |t[1..]| && t[1..][j] == e;
          assert t[j + 1] == e;
        }
      }
      var r := [t[0]] + rest;
      forall i, j | 0 <= i < j < |r|
        ensures KeyLe(Key(r[i]), Key(r[j]))
      {
        if i == 0 {
          assert r[j] == rest[j - 1];
          assert rest[j - 1] in rest;
        }
      }
    }
  }

  lemma {:induction false} InsertWithKey(x: Problem, t: seq<Problem>, k: (int, int))
    ensures WithKey(Insert(x, t), k) == (if Key(x) == k then [x] else []) + WithKey(t, k)
  {
    if t == [] || KeyLe(Key(x), Key(t[0])) {
      assert ([x] + t)[1..] == t;
    } else {
      var rest := Insert(x, t[1..]);
      InsertWithKey(x, t[1..], k);
      assert ([t[0]] + rest)[1..] == rest;
    }
  }

  /**
   * `sorted(free_problems, key=lambda x: (x[1], x[2]))`: an insertion sort, which
   * like Python's sort is stable.
   */
  function SortByKey(s: seq<Problem>): (r: seq<Problem>)
    ensures SortedByKey(r)
    ensures multiset(r) == multiset(s)
    ensures forall k :: WithKey(r, k) == WithKey(s, k)
  {
    if s == [] then []
    else
      var rest := SortByKey(s[1..]);
      assert s == [s[0]] + s[1..];
      InsertPermutes(s[0], rest);
      InsertSorted(s[0], rest);
      assert forall k :: WithKey(Insert(s[0], rest), k) == WithKey(s, k) by {
        forall k
          ensures WithKey(Insert(s[0], rest), k) == WithKey(s, k)
        {
          InsertWithKey(s[0], rest, k);
        }
      }
      Insert(s[0], rest)
  }

  lemma WithKeyHead(s: seq<Problem>)
    requires s != []
    ensures WithKey(s, Key(s[0])) == [s[0]] + WithKey(s[1..], Key(s[0]))
    ensures forall k :: k != Key(s[0]) ==> WithKey(s, k) == WithKey(s[1..], k)
  {
  }

  /**
   * Two arrangements that are both sorted by key and agree on every key's
   * subsequence are equal.
   */
  lemma {:induction false} SortedStableUnique(a: seq<Problem>, b: seq<Problem>)
    requires SortedByKey(a) && SortedByKey(b)
    requires forall k :: WithKey(a, k) == WithKey(b, k)
    ensures a == b
  {
    if a == [] {
      if b != [] {
        WithKeyHead(b);
      }
    } else {
      WithKeyHead(a);
      if b != [] {
        WithKeyHead(b);
        var ka, kb := Key(a[0]), Key(b[0]);
        assert b[0] in WithKey(a, kb);
        assert a[0] in WithKey(b, ka);
        assert KeyLe(ka, kb) by {
          var e := b[0];
          var j :| 0 <= j < |a| && a[j] == e;
        }
        assert KeyLe(kb, ka) by {
          var e := a[0];
          var j :| 0 <= j < |b| && b[j] == e;
        }
        assert ka == kb;
        assert a[0] == b[0];
        forall k
          ensures WithKey(a[1..], k) == WithKey(b[1..], k)
        {
          if k == ka {
            assert [a[0]] + WithKey(a[1..], k) == [b[0]] + WithKey(b[1..], k);
            assert WithKey(a[1..], k) == ([a[0]] + WithKey(a[1..], k))[1..];
            assert WithKey(b[1..], k) == ([b[0]] + WithKey(b[1..], k))[1..];
          }
        }
        SortedStableUnique(a[1..], b[1..]);
        assert a == [a[0]] + a[1..];
        assert b == [b[0]] + b[1..];
      }
    }
  }

  /**
   * Any arrangement of `s` that is sorted by key and keeps the input order of equal
   * keys is the one `SortByKey` returns: it is exactly Python's stable `sorted`.
   */
  lemma SortByKeyIsTheStableSort(s: seq<Problem>, t: seq<Problem>)
    requires SortedByKey(t)
    requires forall k :: WithKey(t, k) == WithKey(s, k)
    ensures t == SortByKey(s)
  {
    SortedStableUnique(t, SortByKey(s));
  }

  // ----- the endpoint and the slice ---------------------------------------

  /** `get_problems_list` once the response is in hand. */
  method GetProblemsList(resp: Response) returns (r: Result<seq<Problem>, FetchError>)
    ensures r.Err? <==> resp.status != 200
    ensures r.Ok? ==> r.value == SortByKey(FreeProblems(resp.records))
  {
    if resp.status != 200 {
      return Err(CouldNotFetch);
    }
    var problems := resp.records;
    var free: seq<Problem> := [];
    for i := 0 to |problems|
      invariant free == FreeProblems(problems[..i])
    {
      assert problems[..i + 1][..i] == problems[..i];
      var p := problems[i];
      if !p.paidOnly {
        free := free + [Project(p)];
      }
    }
    assert problems[..|problems|] == problems;
    r := Ok(SortByKey(free));
  }

  /** The slice `problems[:NUM_QUESTIONS]`. */
  function Select(problems: seq<Problem>): (r: seq<Problem>)
    ensures |r| == if |problems| < NumQuestions then |problems| else NumQuestions
    ensures r <= problems
  {
    if |problems| < NumQuestions then problems else problems[..NumQuestions]
  }

  /** The problems one run works on, from the parsed records. */
  function Selected(rs: seq<Record>): seq<Problem> {
    Select(SortByKey(FreeProblems(rs)))
  }

  /**
   * The selected problems are free, in key order, and no left-out free problem has
   * a smaller key than a selected one.
   */
  lemma SelectionIsEasiest(rs: seq<Record>)
    ensures SortedByKey(Selected(rs))
    ensures forall p :: p in Selected(rs) ==> p in FreeProblems(rs)
    ensures forall i, j :: 0 <= i < |Selected(rs)| <= j < |SortByKey(FreeProblems(rs))| ==>
      KeyLe(Key(Selected(rs)[i]), Key(SortByKey(FreeProblems(rs))[j]))
  {
    var sorted := SortByKey(FreeProblems(rs));
    forall p | p in Selected(rs)
      ensures p in FreeProblems(rs)
    {
      assert p in multiset(sorted);
    }
  }

  /**
   * The example run: a paid-only problem between two free easy ones is skipped, and
   * the two free ones are selected in id order.
   */
  lemma ExampleSelection()
    ensures Selected([
      Record("two-sum", "Two Sum", 1, 1, false),
      Record("paid-q", "Paid", 1, 2, true),
      Record("add-two-numbers", "Add Two Numbers", 1, 3, false)])
      == [Problem("two-sum", 1, 1, "Two Sum"), Problem("add-two-numbers", 1, 3, "Add Two Numbers")]
  {
    var r0 := Record("two-sum", "Two Sum", 1, 1, false);
    var r1 := Record("paid-q", "Paid", 1, 2, true);
    var r2 := Record("add-two-numbers", "Add Two Numbers", 1, 3, false);
    var rs := [r0, r1, r2];
    assert rs[..2] == [r0, r1] && [r0, r1][..1] == [r0] && [r0][..0] == [];
    assert FreeProblems([r0]) == [Project(r0)];
    assert FreeProblems([r0, r1]) == [Project(r0)];
    var free := [Project(r0), Project(r2)];
    assert FreeProblems(rs) == free;
    assert SortedByKey(free);
    SortByKeyIsTheStableSort(free, free);
  }
}
