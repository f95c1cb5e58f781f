/** The query filter: the pattern built from the resolved ids, what searching a
    label string with it means, and the rows of the catalog that pass.

    Ids are interpolated into the pattern unescaped; they are assumed to hold no
    regular-expression metacharacter (and labels no newline), so a full match is
    string equality and a lookahead `(?=.*w)` tried at a position holds exactly when
    `w` occurs at or after that position. */
module Query {
  import opened Text
  import opened Catalog

  /** A run of lookaheads that must all hold at the same position. */
  type Branch = seq<string>

  /** Alternatives, as the pattern text separates them with `|`. */
  type Pattern = seq<Branch>

  function Lookahead(w: string): string {
    "(?=.*" + w + ")"
  }

  function Lookaheads(ids: seq<string>): (r: seq<string>)
    ensures |r| == |ids|
  {
    if ids == [] then [] else [Lookahead(ids[0])] + Lookaheads(ids[1..])
  }

  /** The pattern text: `sep.join(f"(?=.*{w})" for w in cls_id)`, with `sep` either
      `'||'` (union) or `''`. */
  function RegexText(ids: seq<string>, union: bool): string {
    Join(if union then "||" else "", Lookaheads(ids))
  }

  /** The branches that text consists of. Without union the lookaheads form one
      branch. With union, `'||'` between two lookaheads leaves an empty branch. */
  function PatternOf(ids: seq<string>, union: bool): (p: Pattern)
    ensures |p| >= 1
  {
    if !union then [ids] else UnionBranches(ids)
  }

  function UnionBranches(ids: seq<string>): (p: Pattern)
    ensures |p| >= 1
  {
    if |ids| <= 1 then [ids] else [[ids[0]], []] + UnionBranches(ids[1..])
  }

  function RenderBranch(b: Branch): string {
    if b == [] then "" else Lookahead(b[0]) + RenderBranch(b[1..])
  }

  /** A pattern written out, branches separated by `|`. */
  function Render(p: Pattern): string {
    if |p| == 0 then ""
    else if |p| == 1 then RenderBranch(p[0])
    else RenderBranch(p[0]) + "|" + Render(p[1..])
  }

  lemma {:induction false} ConcatIsBranch(ids: seq<string>)
    ensures Join("", Lookaheads(ids)) == RenderBranch(ids)
  {
    if |ids| > 1 {
      var ls := Lookaheads(ids);
      assert ls[1..] == Lookaheads(ids[1..]);
      ConcatIsBranch(ids[1..]);
      assert ls[0] + "" + Join("", ls[1..]) == Lookahead(ids[0]) + RenderBranch(ids[1..]);
    } else if |ids| == 1 {
      assert ids[1..] == [];
    }
  }

  lemma {:induction false} DoubleBarLeavesEmptyBranches(ids: seq<string>)
    ensures Join("||", Lookaheads(ids)) == Render(UnionBranches(ids))
  {
    if |ids| == 1 {
      assert ids[1..] == [];
    } else if |ids| > 1 {
      var ls := Lookaheads(ids);
      var rest := UnionBranches(ids[1..]);
      var p := [[ids[0]], []] + rest;
      assert ls[1..] == Lookaheads(ids[1..]);
      DoubleBarLeavesEmptyBranches(ids[1..]);
      assert p[1..] == [[]] + rest && ([[]] + rest)[1..] == rest;
      assert Render([[]] + rest) == "" + "|" + Render(rest);
      assert RenderBranch([ids[0]]) == Lookahead(ids[0]) + RenderBranch([]);
    }
  }

  /** The pattern text is exactly the branches of `PatternOf` joined with `|`: with
      union, every `'||'` separator is one alternative more, and an empty one. */
  lemma RegexTextStructure(ids: seq<string>, union: bool)
    ensures RegexText(ids, union) == Render(PatternOf(ids, union))
  {
    if union {
      DoubleBarLeavesEmptyBranches(ids);
    } else {
      ConcatIsBranch(ids);
    }
  }

  /** All lookaheads of a branch hold when it is tried at position `pos` of `s`. */
  predicate BranchMatchesAt(b: Branch, s: string, pos: nat)
    requires pos <= |s|
  {
    forall w :: w in b ==> Contains(s[pos..], w)
  }

  /** `re.search`: some branch matches at some start position. */
  predicate Search(p: Pattern, s: string) {
    exists pos: nat, k :: pos <= |s| && 0 <= k < |p| && BranchMatchesAt(p[k], s, pos)
  }

  /** Every id of the branch occurs somewhere in `s`. */
  predicate ContainsAll(s: string, b: Branch) {
    forall w :: w in b ==> Contains(s, w)
  }

  /** A search succeeds exactly when some branch's ids all occur in the string:
      lookaheads only look forward, so the start of the string is the best place to try. */
  lemma SearchMeansSomeBranch(p: Pattern, s: string)
    ensures Search(p, s) <==> exists k :: 0 <= k < |p| && ContainsAll(s, p[k])
  {
    if Search(p, s) {
      var pos: nat, k :| pos <= |s| && 0 <= k < |p| && BranchMatchesAt(p[k], s, pos);
      forall w | w in p[k] ensures Contains(s, w) {
        ContainsInSuffix(s, pos, w);
      }
      assert ContainsAll(s, p[k]);
    }
    if k :| 0 <= k < |p| && ContainsAll(s, p[k]) {
      assert s[0..] == s;
      assert BranchMatchesAt(p[k], s, 0);
    }
  }

  /** Intersection: a label string passes exactly when it contains every id. */
  lemma IntersectionMeansAll(ids: seq<string>, s: string)
    ensures Search(PatternOf(ids, false), s) <==> ContainsAll(s, ids)
  {
    SearchMeansSomeBranch(PatternOf(ids, false), s);
    assert PatternOf(ids, false)[0] == ids;
  }

  /** The intersection filter does not depend on the order (or repetition) of the ids. */
  lemma IntersectionOrderFree(ids1: seq<string>, ids2: seq<string>, s: string)
    requires forall w :: w in ids1 <==> w in ids2
    ensures Search(PatternOf(ids1, false), s) == Search(PatternOf(ids2, false), s)
  {
    IntersectionMeansAll(ids1, s);
    IntersectionMeansAll(ids2, s);
  }

  /** Union of two or more ids matches every label string, even the empty one:
      the empty alternative between `||` always succeeds. */
  lemma UnionMatchesEverything(ids: seq<string>, s: string)
    requires |ids| >= 2
    ensures Search(PatternOf(ids, true), s)
  {
    assert BranchMatchesAt(PatternOf(ids, true)[1], s, 0);
  }

  /** Union of at most one id is the plain containment test (no id: everything passes). */
  lemma UnionOfOne(ids: seq<string>, s: string)
    requires |ids| <= 1
    ensures Search(PatternOf(ids, true), s) <==> ContainsAll(s, ids)
  {
    SearchMeansSomeBranch(PatternOf(ids, true), s);
    assert PatternOf(ids, true)[0] == ids;
  }

  /** What a union was meant to select (a label string containing at least one id)
      always passes: the union filter is a superset of it. */
  lemma UnionCoversAnyId(ids: seq<string>, s: string)
    requires exists w :: w in ids && Contains(s, w)
    ensures Search(PatternOf(ids, true), s)
  {
    if |ids| >= 2 {
      UnionMatchesEverything(ids, s);
    } else {
      UnionOfOne(ids, s);
    }
  }

  /** The superset is strict: "Speech" or "Snoring" passes a row labelled only
      with another class. */
  lemma UnionAdmitsOtherClasses()
    ensures var ids := ["/m/09x0r", "/m/01d3sd"];
      && Search(PatternOf(ids, true), "/m/07pggtn")
      && forall w :: w in ids ==> !Contains("/m/07pggtn", w)
  {
    var ids := ["/m/09x0r", "/m/01d3sd"];
    UnionMatchesEverything(ids, "/m/07pggtn");
    var s := "/m/07pggtn";
    assert s[0..][4] != ids[0][4] && s[1..][0] != ids[0][0] && s[2..][1] != ids[0][1];
    assert s[0..][4] != ids[1][4] && s[1..][0] != ids[1][0] && s[2..][1] != ids[1][1];
    assert forall i :: 3 <= i <= |s| ==> |s[i..]| < 8;
  }

  /** The row test of the filter: `str.fullmatch(cls_id)` or `str.contains(regex)`. */
  datatype LabelTest = FullMatch(id: string) | SearchFor(pattern: Pattern)

  predicate Passes(t: LabelTest, labels: string) {
    match t
    case FullMatch(id) => labels == id
    case SearchFor(p) => Search(p, labels)
  }

  /** `audioset[cls_exmp]`: the rows that pass, in catalog order. */
  function Filter(rows: seq<Row>, t: LabelTest): seq<Row> {
    if rows == [] then []
    else (if Passes(t, rows[0].seg.labels) then [rows[0]] else []) + Filter(rows[1..], t)
  }

  /** The filter keeps each passing row as often as the catalog holds it, and drops
      every other row. */
  lemma {:induction false} FilterCount(rows: seq<Row>, t: LabelTest)
    ensures forall x :: multiset(Filter(rows, t))[x] == if Passes(t, x.seg.labels) then multiset(rows)[x] else 0
  {
    if rows != [] {
      assert rows == [rows[0]] + rows[1..];
      FilterCount(rows[1..], t);
    }
  }

  /** Filtering keeps catalog order: it distributes over concatenation. */
  lemma {:induction false} FilterAppend(a: seq<Row>, b: seq<Row>, t: LabelTest)
    ensures Filter(a + b, t) == Filter(a, t) + Filter(b, t)
  {
    if a == [] {
      assert a + b == b;
    } else {
      var ab := a + b;
      var head := if Passes(t, a[0].seg.labels) then [a[0]] else [];
      assert ab[0] == a[0] && ab[1..] == a[1..] + b;
      FilterAppend(a[1..], b, t);
      assert Filter(ab, t) == head + Filter(ab[1..], t);
      assert Filter(a, t) == head + Filter(a[1..], t);
    }
  }

  /** When every row passes, the filter returns the catalog itself. */
  lemma {:induction false} FilterAllPass(rows: seq<Row>, t: LabelTest)
    requires forall i :: 0 <= i < |rows| ==> Passes(t, rows[i].seg.labels)
    ensures Filter(rows, t) == rows
  {
    if rows != [] {
      FilterAllPass(rows[1..], t);
    }
  }
}
